/** Every step keeps the invariant of `FileTransactionInvariant`. */
module FileTransactionSteps {
  import opened Wrappers
  import opened FileDomain
  import opened Ordering
  import opened FileTransactions
  import opened FileTransactionInvariant

  // ---- stability: what a transaction may assume while others commit ----

  /** The change from `db` to `db'` respects the locks of a transaction that did not move. */
  ghost predicate Rely(db: Tables, seen: set<FileId>, db': Tables, seen': set<FileId>, locks: set<Lock>) {
    && seen <= seen'
    && (forall f :: f in seen && f !in db.files ==> f !in db'.files)
    && (forall f :: f in db.files && f in db'.files ==> SameFile(db.files[f], db'.files[f]))
    && (forall f :: FileLock(f) in locks ==> RowKept(db, seen, db', seen', f))
    && (forall f, a :: FileLock(f) in locks ==> (Uses(db, a, f) <==> Uses(db', a, f)))
    && (forall a :: ArticleLock(a) in locks ==> Current(db, a) == Current(db', a))
  }

  /** Only the orphan time of a committed row ever changes. */
  predicate SameFile(row: FileRow, row': FileRow) {
    row' == row.(orphanedAt := row'.orphanedAt)
  }

  predicate RowKept(db: Tables, seen: set<FileId>, db': Tables, seen': set<FileId>, f: FileId) {
    && (f in seen <==> f in seen')
    && (f in db.files <==> f in db'.files)
    && (f in db.files ==> db.files[f] == db'.files[f])
  }

  lemma SameUsages(db: Tables, db': Tables, f: FileId)
    requires forall a :: Uses(db, a, f) <==> Uses(db', a, f)
    ensures HasUsages(db, f) <==> HasUsages(db', f)
  {
    if HasUsages(db, f) {
      var a :| a in db.articles && Uses(db, a, f);
      assert Uses(db', a, f);
    }
    if HasUsages(db', f) {
      var a :| a in db'.articles && Uses(db', a, f);
      assert Uses(db, a, f);
    }
  }

  lemma LockedUsages(db: Tables, seen: set<FileId>, db': Tables, seen': set<FileId>, locks: set<Lock>)
    requires Rely(db, seen, db', seen', locks)
    ensures forall f :: FileLock(f) in locks ==> (HasUsages(db, f) <==> HasUsages(db', f))
  {
    forall f | FileLock(f) in locks ensures HasUsages(db, f) <==> HasUsages(db', f) {
      SameUsages(db, db', f);
    }
  }

  lemma StableCovered(db: Tables, seen: set<FileId>, db': Tables, seen': set<FileId>, tx: Txn)
    requires Rely(db, seen, db', seen', tx.locks)
    ensures forall f :: Covered(db, seen, tx, f) ==> Covered(db', seen', tx, f)
    ensures forall r :: Checked(db, seen, r) ==> Checked(db', seen', r)
  {
    forall f | Covered(db, seen, tx, f) ensures Covered(db', seen', tx, f) {
      if FileLock(f) in tx.locks { assert RowKept(db, seen, db', seen', f); }
    }
  }

  lemma ViewUsages(db: Tables, seen: set<FileId>, db': Tables, seen': set<FileId>, tx: Txn, f: FileId)
    requires Rely(db, seen, db', seen', tx.locks) && FileLock(f) in tx.locks
    ensures HasUsages(View(db, tx), f) <==> HasUsages(View(db', tx), f)
  {
    forall a ensures Uses(View(db, tx), a, f) <==> Uses(View(db', tx), a, f) {
      assert Uses(db, a, f) <==> Uses(db', a, f);
    }
    SameUsages(View(db, tx), View(db', tx), f);
  }

  lemma StableSettled(db: Tables, seen: set<FileId>, db': Tables, seen': set<FileId>, tx: Txn)
    requires tx.op.WriteArticle?
    requires Rely(db, seen, db', seen', tx.locks) && AllCovered(db, seen, tx) && WritesGuarded(db, tx)
    requires Settled(db, tx)
    ensures Settled(db', tx)
  {
    var view, view' := View(db, tx), View(db', tx);
    forall f | f in Transitioned(tx) && f in view'.files ensures Marked(view', f) {
      assert Covered(db, seen, tx, f);
      assert f in tx.files || f in db.files;
      assert RowKept(db, seen, db', seen', f);
      assert f in view.files && view.files[f] == view'.files[f];
      assert Marked(view, f);
      ViewUsages(db, seen, db', seen', tx, f);
    }
  }

  lemma StableWritten(db: Tables, seen: set<FileId>, db': Tables, seen': set<FileId>, tx: Txn)
    requires Rely(db, seen, db', seen', tx.locks) && Written(db, seen, tx)
    ensures Written(db', seen', tx)
    ensures AttachedOk(db, tx) ==> AttachedOk(db', tx)
  {
    StableCovered(db, seen, db', seen', tx);
    forall f | f in After(tx) ensures RowKept(db, seen, db', seen', f) {
      assert Covered(db, seen, tx, f);
    }
  }

  lemma StableArticle(db: Tables, seen: set<FileId>, db': Tables, seen': set<FileId>, tx: Txn)
    requires Rely(db, seen, db', seen', tx.locks)
    requires tx.op.WriteArticle? && WritesGuarded(db, tx) && ArticlePhaseOk(db, seen, tx)
    ensures ArticlePhaseOk(db', seen', tx)
  {
    StableCovered(db, seen, db', seen', tx);
    if Written(db, seen, tx) {
      StableWritten(db, seen, db', seen', tx);
      if Settled(db, tx) { StableSettled(db, seen, db', seen', tx); }
    }
  }

  lemma StablePrune(db: Tables, seen: set<FileId>, db': Tables, seen': set<FileId>, tx: Txn)
    requires Rely(db, seen, db', seen', tx.locks) && ErasedOk(db, tx) && PrunePhaseOk(db, tx)
    ensures PrunePhaseOk(db', tx)
  {
    forall f | Candidate(db, tx.op, f) && FileLock(f) in tx.locks ensures Candidate(db', tx.op, f) {
      assert RowKept(db, seen, db', seen', f);
    }
  }

  lemma StableUpload(db: Tables, seen: set<FileId>, db': Tables, seen': set<FileId>, tx: Txn)
    requires Rely(db, seen, db', seen', tx.locks) && tx.op.Upload? && UploadPhaseOk(db, seen, tx)
    ensures UploadPhaseOk(db', seen', tx)
  {
    StableCovered(db, seen, db', seen', tx);
    forall d | RefreshedAs(db, tx, d) ensures RefreshedAs(db', tx, d) {
      assert RowKept(db, seen, db', seen', d);
    }
  }

  lemma StableDelete(db: Tables, seen: set<FileId>, db': Tables, seen': set<FileId>, tx: Txn, f: FileId)
    requires Rely(db, seen, db', seen', tx.locks) && DeletePhaseOk(db, seen, tx, f)
    ensures DeletePhaseOk(db', seen', tx, f)
  {
    StableCovered(db, seen, db', seen', tx);
  }

  lemma StableFileCommon(db: Tables, seen: set<FileId>, db': Tables, seen': set<FileId>, tx: Txn)
    requires Rely(db, seen, db', seen', tx.locks) && WritesGuarded(db, tx) && FileCommon(db, tx)
    ensures FileCommon(db', tx)
  {
    LockedUsages(db, seen, db', seen', tx.locks);
  }

  lemma StableFile(db: Tables, seen: set<FileId>, db': Tables, seen': set<FileId>, tx: Txn)
    requires Rely(db, seen, db', seen', tx.locks)
    requires !tx.op.WriteArticle? && Common(db, seen, tx) && PhaseOk(db, seen, tx)
    ensures PhaseOk(db', seen', tx)
  {
    hide Rely;
    hide FileCommon;
    hide PrunePhaseOk;
    hide UploadPhaseOk;
    hide DeletePhaseOk;
    StableFileCommon(db, seen, db', seen', tx);
    match tx.op
    case Prune(_, _) => StablePrune(db, seen, db', seen', tx);
    case Upload(_, _, _) => StableUpload(db, seen, db', seen', tx);
    case DeleteFile(f) => StableDelete(db, seen, db', seen', tx, f);
  }

  lemma StableCommon(db: Tables, seen: set<FileId>, db': Tables, seen': set<FileId>, tx: Txn)
    requires Rely(db, seen, db', seen', tx.locks) && Common(db, seen, tx)
    ensures Common(db', seen', tx)
  {
    LockedUsages(db, seen, db', seen', tx.locks);
    forall f | FileLock(f) in tx.locks ensures RowKept(db, seen, db', seen', f) {}
    forall a | ArticleLock(a) in tx.locks ensures a in db.articles <==> a in db'.articles {
      assert Current(db, a) == Current(db', a);
    }
  }

  lemma Stable(db: Tables, seen: set<FileId>, db': Tables, seen': set<FileId>, tx: Txn)
    requires Rely(db, seen, db', seen', tx.locks) && TxnInv(db, seen, tx)
    ensures TxnInv(db', seen', tx)
  {
    StableCommon(db, seen, db', seen', tx);
    if tx.op.WriteArticle? {
      StableArticle(db, seen, db', seen', tx);
    } else {
      StableFile(db, seen, db', seen', tx);
    }
  }

  // ---- guarantee: what a commit changes ----

  /** A committing transaction changes the usage only of files it has locked. */
  lemma CommitUsage(db: Tables, seen: set<FileId>, tx: Txn, a: ArticleId, f: FileId)
    requires ReferencesValid(db) && TxnInv(db, seen, tx) && tx.phase.Ready? && FileLock(f) !in tx.locks
    ensures Uses(db, a, f) <==> Uses(View(db, tx), a, f)
  {
    if tx.op.WriteArticle? && a == tx.op.article {
      assert tx.before == Current(db, a);
      assert a in db.articles ==> ArticleRefsOk(db, db.articles[a]);
      assert forall g :: g in Transitioned(tx) ==> g in db.files && Covered(db, seen, tx, g);
    }
  }

  lemma Guarantee(db: Tables, seen: set<FileId>, tx: Txn, locks: set<Lock>)
    requires ReferencesValid(db) && db.files.Keys <= seen
    requires TxnInv(db, seen, tx) && tx.phase.Ready? && locks !! tx.locks
    ensures Rely(db, seen, View(db, tx), seen + View(db, tx).files.Keys, locks)
  {
    var db' := View(db, tx);
    forall f, a | FileLock(f) in locks ensures Uses(db, a, f) <==> Uses(db', a, f) {
      CommitUsage(db, seen, tx, a, f);
    }
    forall f | FileLock(f) in locks ensures RowKept(db, seen, db', seen + db'.files.Keys, f) {
      assert f !in tx.files;
    }
  }

  lemma ArticleCommitMarks(db: Tables, tx: Txn)
    requires OrphanMarksExact(db) && tx.op.WriteArticle? && tx.wrote && Settled(db, tx)
    requires tx.before == Current(db, tx.op.article)
    ensures OrphanMarksExact(View(db, tx))
  {
    var db' := View(db, tx);
    forall f | f in db'.files ensures Marked(db', f) {
      if f !in Transitioned(tx) {
        assert f !in tx.files;
        forall a ensures Uses(db, a, f) <==> Uses(db', a, f) {}
        SameUsages(db, db', f);
      }
    }
  }

  lemma FileCommitMarks(db: Tables, tx: Txn)
    requires OrphanMarksExact(db) && !tx.op.WriteArticle? && FileCommon(db, tx)
    ensures OrphanMarksExact(View(db, tx))
  {
    var db' := View(db, tx);
    forall f | f in db'.files ensures Marked(db', f) {
      SameUsages(db, db', f);
      assert f in tx.files ==> tx.files[f].Some? && db'.files[f] == tx.files[f].value;
    }
  }

  lemma CommitMarks(db: Tables, seen: set<FileId>, tx: Txn)
    requires Consistent(db) && TxnInv(db, seen, tx) && tx.phase.Ready?
    ensures OrphanMarksExact(View(db, tx))
  {
    hide Settled;
    hide View;
    hide Common;
    hide OrphanMarksExact;
    if tx.op.WriteArticle? { ArticleCommitMarks(db, tx); } else { FileCommitMarks(db, tx); }
  }

  lemma WrittenArticleRefs(db: Tables, seen: set<FileId>, tx: Txn)
    requires TxnInv(db, seen, tx) && tx.phase.Ready? && tx.op.WriteArticle? && tx.op.after.Some?
    ensures ArticleRefsOk(db, tx.op.after.value)
  {
    var art := tx.op.after.value;
    assert Managed(art) <= db.files.Keys;
    forall f | f in art.content ensures RefOk(db, f, ArticleContentImage) {
      assert Checked(db, seen, Ref(f, ArticleContentImage));
    }
    if art.cover.Some? {
      assert Checked(db, seen, Ref(art.cover.value, ArticleCoverImage));
    }
  }

  /** The rows an article references outlive any commit that keeps the article. */
  lemma KeptArticleRefs(db: Tables, seen: set<FileId>, tx: Txn, a: ArticleId, art: Article)
    requires TxnInv(db, seen, tx) && ArticleRefsOk(db, art)
    requires tx.op.WriteArticle? || Current(db, a) == Some(art)
    ensures ArticleRefsOk(View(db, tx), art)
  {
    forall f | f in Managed(art)
      ensures f in View(db, tx).files && View(db, tx).files[f].purpose == db.files[f].purpose {
      assert !tx.op.WriteArticle? ==> Uses(db, a, f) && HasUsages(db, f);
      assert f !in tx.erased;
    }
  }

  lemma CommitReferences(db: Tables, seen: set<FileId>, tx: Txn)
    requires Consistent(db) && TxnInv(db, seen, tx) && tx.phase.Ready?
    ensures ReferencesValid(View(db, tx))
  {
    var db' := View(db, tx);
    forall a | a in db'.articles ensures ArticleRefsOk(db', db'.articles[a]) {
      if tx.op.WriteArticle? && a == tx.op.article {
        WrittenArticleRefs(db, seen, tx);
      } else {
        assert ArticleRefsOk(db, db.articles[a]);
      }
      KeptArticleRefs(db, seen, tx, a, db'.articles[a]);
    }
  }

  /** A commit keeps the object key of every row it keeps, and adds at most the uploaded row. */
  lemma CommitKeys(db: Tables, seen: set<FileId>, tx: Txn, f: FileId)
    requires Common(db, seen, tx) && (Inserted(tx) ==> tx.op.id in tx.files && tx.files[tx.op.id] == Some(tx.op.row))
    requires f in View(db, tx).files
    ensures if f in db.files then View(db, tx).files[f].key == db.files[f].key
            else Inserted(tx) && f == tx.op.id && View(db, tx).files[f].key == tx.op.row.key
  {
  }

  lemma PendingRows(db: Tables, seen: set<FileId>, tx: Txn)
    requires TxnInv(db, seen, tx)
    ensures Common(db, seen, tx)
    ensures Inserted(tx) ==> tx.op.id in tx.files && tx.files[tx.op.id] == Some(tx.op.row)
    ensures tx.phase.Ready? ==> forall f :: f in tx.erased ==> f in tx.files && tx.files[f].None?
  {
    hide LocksReal;
    hide WritesGuarded;
  }

  lemma CommitObjectsUnique(s: State, t: TxnId)
    requires Inv(s) && Enabled(s, Commit(t))
    ensures ObjectsUnique(Apply(s, Commit(t)).db)
    ensures InsertsUnique(Apply(s, Commit(t)))
  {
    hide TxnInv;
    hide Common;
    var tx := s.txns[t];
    PendingRows(s.db, s.seen, tx);
    forall f | f in View(s.db, tx).files
      ensures if f in s.db.files then View(s.db, tx).files[f].key == s.db.files[f].key
              else Inserted(tx) && f == tx.op.id && View(s.db, tx).files[f].key == tx.op.row.key
    {
      CommitKeys(s.db, s.seen, tx, f);
    }
  }

  lemma CommitObjectsPresent(s: State, t: TxnId)
    requires Inv(s) && Enabled(s, Commit(t))
    ensures ObjectsPresent(Apply(s, Commit(t)))
  {
    hide TxnInv;
    hide Common;
    var s', tx := Apply(s, Commit(t)), s.txns[t];
    PendingRows(s.db, s.seen, tx);
    forall f | f in s'.db.files ensures s'.db.files[f].key in s'.objects || BeingErased(s', f) {
      CommitKeys(s.db, s.seen, tx, f);
      if f in s.db.files && s.db.files[f].key !in s.objects {
        var u :| u in s.txns && f in s.txns[u].erased;
        assert f !in tx.erased;
        assert u in s'.txns && f in s'.txns[u].erased;
      }
    }
  }

  lemma CommitKeepsInv(s: State, t: TxnId)
    requires Inv(s) && Enabled(s, Commit(t))
    ensures Inv(Apply(s, Commit(t)))
  {
    hide TxnInv;
    hide OrphanMarksExact;
    hide ReferencesValid;
    hide ObjectsUnique;
    hide InsertsUnique;
    hide ObjectsPresent;
    hide Rely;
    var s', tx := Apply(s, Commit(t)), s.txns[t];
    CommitMarks(s.db, s.seen, tx);
    CommitReferences(s.db, s.seen, tx);
    CommitObjectsUnique(s, t);
    CommitObjectsPresent(s, t);
    forall u | u in s'.txns ensures TxnInv(s'.db, s'.seen, s'.txns[u]) {
      Guarantee(s.db, s.seen, tx, s.txns[u].locks);
      Stable(s.db, s.seen, s'.db, s'.seen, s.txns[u]);
    }
  }

  // ---- the steps of an article request ----

  lemma ArticleBegin(db: Tables, seen: set<FileId>, tx: Txn)
    requires TxnInv(db, seen, tx) && tx.op.WriteArticle? && tx.phase.Begin?
    ensures TxnInv(db, seen, AdvanceBegin(db, tx))
  {
    if tx.op.creates { assert ArticleLock(tx.op.article) in tx.locks; }
  }

  lemma ArticleCheckDone(db: Tables, seen: set<FileId>, tx: Txn)
    requires TxnInv(db, seen, tx) && tx.op.WriteArticle? && tx.phase == Check([])
    requires ReferencesValid(db) && db.files.Keys <= seen
    ensures forall f :: f in Transitioned(tx) ==> f in seen
  {
    forall f | f in Transitioned(tx) ensures f in seen {
      if f in ManagedOf(tx.before) {
        assert ArticleRefsOk(db, db.articles[tx.op.article]);
      } else if f in tx.op.after.value.content {
        assert Checked(db, seen, Ref(f, ArticleContentImage));
      } else {
        assert Checked(db, seen, Ref(f, ArticleCoverImage));
      }
    }
  }

  lemma ArticleCheckLast(db: Tables, seen: set<FileId>, tx: Txn, next: Txn)
    requires tx.op.WriteArticle? && tx.phase == Check([]) && ArticleBodyOk(db, seen, tx) && next == AdvanceCheck(db, tx)
    requires forall f :: f in Transitioned(tx) ==> f in seen
    ensures ArticleBodyOk(db, seen, next) && next.phase.Locking?
  {
    assert Transitioned(next) == Transitioned(tx);
  }

  lemma ArticleCheckOne(db: Tables, seen: set<FileId>, tx: Txn, next: Txn)
    requires tx.op.WriteArticle? && tx.phase.Check? && tx.phase.refs != [] && ArticleBodyOk(db, seen, tx)
    requires next == AdvanceCheck(db, tx)
    requires db.files.Keys <= seen
    ensures next.phase.Failed? || (next.phase.Check? && ArticleBodyOk(db, seen, next))
  {
    var refs := tx.phase.refs;
    hide LexLess;
    forall r | r in RefsOf(tx.op.after) && RefOk(db, refs[0].file, refs[0].purpose)
      ensures r in refs[1..] || Checked(db, seen, r) {
      assert r in refs ==> r == refs[0] || r in refs[1..];
    }
  }

  lemma CheckContinues(db: Tables, tx: Txn)
    requires tx.phase.Check?
    ensures Continued(tx, AdvanceCheck(db, tx)) && AdvanceCheck(db, tx).files == tx.files
  {
  }

  lemma ArticleCheck(db: Tables, seen: set<FileId>, tx: Txn)
    requires TxnInv(db, seen, tx) && tx.op.WriteArticle? && tx.phase.Check?
    requires ReferencesValid(db) && db.files.Keys <= seen
    ensures TxnInv(db, seen, AdvanceCheck(db, tx))
  {
    hide ArticleBodyOk;
    hide Transitioned;
    hide AdvanceCheck;
    hide WritesGuarded;
    hide LocksReal;
    hide ErasedOk;
    var next := AdvanceCheck(db, tx);
    CheckContinues(db, tx);
    MoreLocksGuard(db, tx, next);
    CommonKept(db, seen, tx, next);
    if tx.phase.refs == [] {
      ArticleCheckDone(db, seen, tx);
      ArticleCheckLast(db, seen, tx, next);
    } else {
      ArticleCheckOne(db, seen, tx, next);
    }
  }

  /** Taking one more file lock keeps the ascending order and what is already covered. */
  lemma ArticleLockBody(db: Tables, seen: set<FileId>, tx: Txn, next: Txn)
    requires tx.op.WriteArticle? && ArticleBodyOk(db, seen, tx)
    requires tx.phase.Locking? && tx.phase.goal.Write? && tx.phase.todo != [] && next == AdvanceLock(db, tx)
    ensures ArticleBodyOk(db, seen, next)
  {
    var todo := tx.phase.todo;
    AscendingTail(todo);
    assert Transitioned(next) == Transitioned(tx);
    forall f | f in Transitioned(tx) ensures f in todo[1..] || Covered(db, seen, next, f) {
      assert f in todo || Covered(db, seen, tx, f);
    }
    forall l, f | l in next.locks && f in todo[1..] ensures LockBefore(l, FileLock(f)) {
      assert l == FileLock(todo[0]) || l in tx.locks;
    }
  }

  lemma ArticleLockDone(db: Tables, seen: set<FileId>, tx: Txn, next: Txn)
    requires tx.op.WriteArticle? && ArticleBodyOk(db, seen, tx)
    requires tx.phase.Locking? && tx.phase.goal.Write? && tx.phase.todo == [] && next == AdvanceLock(db, tx)
    ensures ArticleBodyOk(db, seen, next)
  {
    assert Transitioned(next) == Transitioned(tx);
    forall f | f in Transitioned(tx) ensures Covered(db, seen, next, f) {
      assert f !in tx.phase.todo;
    }
  }

  /** After the article is written every file it locks again is already locked. */
  lemma ArticleLockAgain(db: Tables, seen: set<FileId>, tx: Txn, next: Txn)
    requires tx.op.WriteArticle? && ArticleBodyOk(db, seen, tx)
    requires tx.phase.Locking? && !tx.phase.goal.Write? && next == AdvanceLock(db, tx)
    ensures ArticleBodyOk(db, seen, next) && next.locks == tx.locks
  {
    var todo := tx.phase.todo;
    if todo != [] {
      assert todo == [todo[0]] + todo[1..];
      assert todo[0] in todo && Covered(db, seen, tx, todo[0]);
      assert tx.locks + {FileLock(todo[0])} == tx.locks || todo[0] !in db.files;
      assert next == tx.(phase := Locking(todo[1..], tx.phase.goal));
    }
    WrittenSame(db, seen, tx, next);
  }

  /** Only the phase differs. */
  lemma WrittenSame(db: Tables, seen: set<FileId>, tx: Txn, next: Txn)
    requires next == tx.(phase := next.phase)
    ensures Written(db, seen, tx) <==> Written(db, seen, next)
    ensures AttachedOk(db, tx) <==> AttachedOk(db, next)
    ensures Transitioned(tx) == Transitioned(next) && After(tx) == After(next) && Detached(tx) == Detached(next)
  {
    forall f ensures Covered(db, seen, tx, f) <==> Covered(db, seen, next, f) {}
  }

  lemma LockRealLocks(db: Tables, seen: set<FileId>, tx: Txn, next: Txn)
    requires LocksReal(db, seen, tx) && tx.phase.Locking? && !Inserted(tx) && next == AdvanceLock(db, tx)
    ensures LocksReal(db, seen, next)
  {
    forall l | l in next.locks
      ensures match l
              case ArticleLock(a) => tx.op.WriteArticle? && a == tx.op.article && (tx.op.creates <==> a !in db.articles)
              case FileLock(f) => f in db.files
    {
      if l !in tx.locks { assert l == FileLock(tx.phase.todo[0]); }
    }
  }

  lemma MoreLocksGuard(db: Tables, tx: Txn, next: Txn)
    requires WritesGuarded(db, tx) && next.files == tx.files && tx.locks <= next.locks && next.erased == tx.erased
    ensures WritesGuarded(db, next)
  {
  }

  lemma MoreLocksErased(db: Tables, tx: Txn, next: Txn)
    requires ErasedOk(db, tx) && next.files == tx.files && tx.locks <= next.locks && next.erased == tx.erased
    requires !tx.phase.Erase?
    ensures ErasedOk(db, next)
  {
  }

  lemma LockCommon(db: Tables, seen: set<FileId>, tx: Txn, next: Txn)
    requires Common(db, seen, tx) && tx.phase.Locking? && !Inserted(tx) && next == AdvanceLock(db, tx)
    ensures Common(db, seen, next)
  {
    hide LocksReal;
    hide WritesGuarded;
    hide ErasedOk;
    LockRealLocks(db, seen, tx, next);
    MoreLocksGuard(db, tx, next);
    MoreLocksErased(db, tx, next);
  }

  lemma ArticleLocking(db: Tables, seen: set<FileId>, tx: Txn)
    requires TxnInv(db, seen, tx) && tx.op.WriteArticle? && tx.phase.Locking?
    ensures TxnInv(db, seen, AdvanceLock(db, tx))
  {
    hide ArticleBodyOk;
    hide Common;
    var next := AdvanceLock(db, tx);
    LockCommon(db, seen, tx, next);
    if !tx.phase.goal.Write? { ArticleLockAgain(db, seen, tx, next); }
    else if tx.phase.todo == [] { ArticleLockDone(db, seen, tx, next); }
    else { ArticleLockBody(db, seen, tx, next); }
  }

  lemma ArticleRunWrite(db: Tables, seen: set<FileId>, tx: Txn, next: Txn)
    requires tx.op.WriteArticle? && ArticleBodyOk(db, seen, tx) && tx.phase.Run?
    requires (tx.phase.goal.Write? || tx.phase.goal.Sync?) && next == AdvanceRun(db, tx, true)
    ensures next.phase.Failed? || ArticleBodyOk(db, seen, next)
    ensures next.files == tx.files
  {
    assert Transitioned(tx) == Transitioned(next) && After(tx) == After(next);
    assert forall f :: Covered(db, seen, tx, f) <==> Covered(db, seen, next, f);
  }

  lemma ArticleRunAttach(db: Tables, seen: set<FileId>, tx: Txn, next: Txn)
    requires tx.op.WriteArticle? && ArticleBodyOk(db, seen, tx) && tx.phase.Run?
    requires tx.phase.goal.Attach? && next == AdvanceRun(db, tx, true)
    ensures ArticleBodyOk(db, seen, next) && WritesGuarded(db, next)
  {
    var view := View(db, tx);
    assert view.files == db.files;
    assert next.files == Attached(view, After(tx));
    assert Transitioned(next) == Transitioned(tx) && After(next) == After(tx);
    assert forall f :: Covered(db, seen, tx, f) <==> Covered(db, seen, next, f);
    assert Written(db, seen, next) && AttachedOk(db, next);
  }

  /** The rows after the last statement of an article request. */
  lemma OrphanedRows(db: Tables, seen: set<FileId>, tx: Txn, next: Txn, f: FileId)
    requires tx.op.WriteArticle? && tx.phase.Run? && tx.phase.goal.Orphan? && next == AdvanceRun(db, tx, true)
    requires Written(db, seen, tx) && AttachedOk(db, tx) && f in Transitioned(tx) && f in View(db, next).files
    ensures f in View(db, tx).files
    ensures f in After(tx) ==> View(db, next).files[f].orphanedAt.None?
    ensures f !in After(tx) ==> f in db.files
    ensures f !in After(tx) && HasUsages(View(db, tx), f) ==>
      View(db, next).files[f].orphanedAt == db.files[f].orphanedAt
    ensures f !in After(tx) && !HasUsages(View(db, tx), f) ==> View(db, next).files[f].orphanedAt == Some(tx.op.now)
  {
    hide HasUsages;
    assert f in After(tx) || (f in Detached(tx) && f !in tx.files);
  }

  lemma OrphanStep(db: Tables, tx: Txn, next: Txn)
    requires tx.op.WriteArticle? && tx.phase.Run? && tx.phase.goal.Orphan? && next == AdvanceRun(db, tx, true)
    ensures Transitioned(next) == Transitioned(tx) && Detached(next) == Detached(tx) && After(next) == After(tx)
    ensures View(db, next).articles == View(db, tx).articles && next.op == tx.op
    ensures forall f :: f in next.files ==>
      (f in tx.files && next.files[f] == tx.files[f])
        || (f in Detached(tx) && next.files[f].Some? && next.files[f].value.orphanedAt == Some(tx.op.now))
  {
    hide HasUsages;
  }

  /** The heart of the matter: under the locks, the usage test of the last statement
      decides the mark of every file the request touched. */
  lemma ArticleOrphanSettles(db: Tables, seen: set<FileId>, tx: Txn, next: Txn)
    requires tx.op.WriteArticle? && tx.phase.Run? && tx.phase.goal.Orphan? && next == AdvanceRun(db, tx, true)
    requires Written(db, seen, tx) && AttachedOk(db, tx) && tx.before == Current(db, tx.op.article)
    requires OrphanMarksExact(db)
    ensures Settled(db, next)
  {
    hide AdvanceRun;
    OrphanStep(db, tx, next);
    var view, view' := View(db, tx), View(db, next);
    forall f | f in Transitioned(tx) && f in view'.files ensures Marked(view', f) {
      OrphanMarkRight(db, seen, tx, next, f);
    }
    assert forall f :: f in tx.files ==> f in After(tx) && f !in Detached(tx);
  }

  lemma OrphanMarkRight(db: Tables, seen: set<FileId>, tx: Txn, next: Txn, f: FileId)
    requires tx.op.WriteArticle? && tx.phase.Run? && tx.phase.goal.Orphan? && next == AdvanceRun(db, tx, true)
    requires Written(db, seen, tx) && AttachedOk(db, tx) && tx.before == Current(db, tx.op.article)
    requires OrphanMarksExact(db)
    requires f in Transitioned(tx) && f in View(db, next).files
    ensures Marked(View(db, next), f)
  {
    hide AdvanceRun;
    hide ViewFiles;
    hide AttachedOk;
    OrphanStep(db, tx, next);
    OrphanedRows(db, seen, tx, next, f);
    SameUsages(View(db, tx), View(db, next), f);
    if f in After(tx) {
      assert Uses(View(db, tx), tx.op.article, f);
    } else {
      assert Uses(db, tx.op.article, f);
    }
  }

  lemma ArticleRunOrphan(db: Tables, seen: set<FileId>, tx: Txn, next: Txn)
    requires tx.op.WriteArticle? && tx.phase.Run? && tx.phase.goal.Orphan? && next == AdvanceRun(db, tx, true)
    requires Written(db, seen, tx) && AttachedOk(db, tx) && WritesGuarded(db, tx)
    ensures Written(db, seen, next) && WritesGuarded(db, next)
  {
    var view := View(db, tx);
    assert Transitioned(next) == Transitioned(tx) && After(next) == After(tx);
    assert forall f :: Covered(db, seen, tx, f) <==> Covered(db, seen, next, f);
    forall f | f in next.files
      ensures FileLock(f) in next.locks && next.files[f].Some?
      ensures f in db.files ==> next.files[f].value == db.files[f].(orphanedAt := next.files[f].value.orphanedAt)
    {
      assert f in Transitioned(tx);
      assert f in tx.files || f in view.files;
    }
  }

  lemma ArticleRunOrphanBody(db: Tables, seen: set<FileId>, tx: Txn, next: Txn)
    requires tx.op.WriteArticle? && tx.phase.Run? && tx.phase.goal.Orphan? && next == AdvanceRun(db, tx, true)
    requires ArticleBodyOk(db, seen, tx) && WritesGuarded(db, tx) && tx.before == Current(db, tx.op.article)
    requires OrphanMarksExact(db)
    ensures ArticleBodyOk(db, seen, next) && WritesGuarded(db, next)
  {
    hide Written;
    hide AttachedOk;
    hide Settled;
    hide WritesGuarded;
    ArticleOrphanSettles(db, seen, tx, next);
    ArticleRunOrphan(db, seen, tx, next);
  }

  lemma GoalOfArticle(db: Tables, seen: set<FileId>, tx: Txn)
    requires tx.op.WriteArticle? && ArticleBodyOk(db, seen, tx) && tx.phase.Run?
    ensures tx.phase.goal.Write? || tx.phase.goal.Sync? || tx.phase.goal.Attach? || tx.phase.goal.Orphan?
  {
  }

  /** A request that keeps its locks and erases nothing keeps `Common` if its writes stay guarded. */
  lemma CommonKept(db: Tables, seen: set<FileId>, tx: Txn, next: Txn)
    requires Common(db, seen, tx) && WritesGuarded(db, next) && next.locks == tx.locks && next.erased == {}
    requires next.op == tx.op && tx.op.WriteArticle?
    ensures Common(db, seen, next)
  {
    hide WritesGuarded;
  }

  /** What a statement of an article request under its locks leaves to be checked. */
  predicate Continued(tx: Txn, next: Txn) {
    && next.op == tx.op && next.locks == tx.locks && next.before == tx.before && next.erased == tx.erased
    && !next.phase.Begin?
  }

  lemma ArticleRunBody(db: Tables, seen: set<FileId>, tx: Txn, next: Txn)
    requires tx.op.WriteArticle? && tx.phase.Run? && ArticleBodyOk(db, seen, tx) && WritesGuarded(db, tx)
    requires tx.before == Current(db, tx.op.article) && OrphanMarksExact(db) && next == AdvanceRun(db, tx, true)
    ensures (next.phase.Failed? || ArticleBodyOk(db, seen, next)) && WritesGuarded(db, next) && Continued(tx, next)
  {
    hide ArticleBodyOk;
    hide WritesGuarded;
    hide OrphanMarksExact;
    GoalOfArticle(db, seen, tx);
    if tx.phase.goal.Attach? {
      ArticleRunAttach(db, seen, tx, next);
    } else if tx.phase.goal.Orphan? {
      ArticleRunOrphanBody(db, seen, tx, next);
    } else {
      ArticleRunWrite(db, seen, tx, next);
      MoreLocksGuard(db, tx, next);
    }
  }

  lemma ArticleRun(db: Tables, seen: set<FileId>, tx: Txn)
    requires TxnInv(db, seen, tx) && tx.op.WriteArticle? && tx.phase.Run? && OrphanMarksExact(db)
    ensures TxnInv(db, seen, AdvanceRun(db, tx, true))
  {
    hide ArticleBodyOk;
    hide WritesGuarded;
    hide LocksReal;
    hide ErasedOk;
    hide OrphanMarksExact;
    hide AdvanceRun;
    var next := AdvanceRun(db, tx, true);
    ArticleRunBody(db, seen, tx, next);
    CommonKept(db, seen, tx, next);
  }

  lemma ArticleGo(s: State, t: TxnId, ok: bool)
    requires Inv(s) && Enabled(s, Go(t, ok)) && s.txns[t].op.WriteArticle?
    ensures TxnInv(s.db, s.seen, Advance(s, t, ok))
  {
    var db, seen, tx := s.db, s.seen, s.txns[t];
    assert tx.phase.Begin? || tx.phase.Check? || tx.phase.Locking? || tx.phase.Run? by {
      assert ArticlePhaseOk(db, seen, tx);
    }
    match tx.phase
    case Begin => ArticleBegin(db, seen, tx);
    case Check(_) => ArticleCheck(db, seen, tx);
    case Locking(_, goal) => ArticleLocking(db, seen, tx);
    case Run(goal) => ArticleRun(db, seen, tx);
    case _ =>
  }

  // ---- delete_file, prune and upload ----

  lemma SweepTail(db: Tables, tx: Txn, rest: seq<FileId>)
    requires ToSweep(db, tx, rest) && rest != []
    ensures ToSweep(db, tx, rest[1..]) && rest[0] !in rest[1..]
    ensures FileLock(rest[0]) in tx.locks && rest[0] !in tx.files && rest[0] !in tx.erased
    ensures Candidate(db, tx.op, rest[0])
  {
    assert rest == [rest[0]] + rest[1..];
    assert rest[0] in rest;
  }

  lemma NoArticleWrite(db: Tables, tx: Txn, f: FileId)
    requires !tx.op.WriteArticle?
    ensures HasUsages(View(db, tx), f) <==> HasUsages(db, f)
  {
    SameUsages(View(db, tx), db, f);
  }

  /** A candidate is orphaned under prune's lock, so the usage test before its removal is
      never met. */
  lemma SweepNeverMarks(db: Tables, tx: Txn, ok: bool)
    requires OrphanMarksExact(db) && tx.op.Prune? && tx.phase.Sweep? && ToSweep(db, tx, tx.phase.rest)
    ensures
      var rest := tx.phase.rest;
      AdvanceSweep(db, tx, ok) == if rest == [] then tx.(phase := Ready)
        else if ok then tx.(phase := Erase(rest[0], rest[1..]), erased := tx.erased + {rest[0]})
        else tx.(phase := Sweep(rest[1..]))
  {
    if tx.phase.rest != [] {
      SweepTail(db, tx, tx.phase.rest);
      NoArticleWrite(db, tx, tx.phase.rest[0]);
    }
  }

  lemma PruneSweep(db: Tables, seen: set<FileId>, tx: Txn, ok: bool, next: Txn)
    requires Common(db, seen, tx) && FileCommon(db, tx) && PrunePhaseOk(db, tx) && OrphanMarksExact(db)
    requires tx.op.Prune? && tx.phase.Sweep? && next == AdvanceSweep(db, tx, ok)
    ensures Common(db, seen, next) && FileCommon(db, next) && PrunePhaseOk(db, next)
  {
    hide AdvanceSweep;
    SweepNeverMarks(db, tx, ok);
    if tx.phase.rest != [] { SweepTail(db, tx, tx.phase.rest); }
  }

  /** RESTRICT never stops a delete whose object is already gone. */
  lemma EraseNeverFails(db: Tables, seen: set<FileId>, tx: Txn)
    requires ErasedOk(db, tx) && !tx.op.WriteArticle? && tx.phase.Erase? && tx.phase.file in tx.erased
    ensures AdvanceErase(db, tx) == tx.(phase := Sweep(tx.phase.rest), files := tx.files[tx.phase.file := None])
  {
    NoArticleWrite(db, tx, tx.phase.file);
  }

  /** The pending delete of a row whose object is gone. */
  predicate IsErased(tx: Txn, next: Txn) {
    && tx.phase.Erase? && tx.phase.file in tx.erased
    && next == tx.(phase := Sweep(tx.phase.rest), files := tx.files[tx.phase.file := None])
  }

  lemma EraseCommon(db: Tables, seen: set<FileId>, tx: Txn, next: Txn)
    requires Common(db, seen, tx) && IsErased(tx, next)
    ensures Common(db, seen, next)
  {
  }

  lemma ErasePhase(db: Tables, seen: set<FileId>, tx: Txn, next: Txn)
    requires PhaseOk(db, seen, tx) && !tx.op.WriteArticle? && IsErased(tx, next)
    ensures PhaseOk(db, seen, next)
  {
    hide HasUsages;
  }

  lemma ErasingFile(db: Tables, seen: set<FileId>, tx: Txn)
    requires PhaseOk(db, seen, tx) && !tx.op.WriteArticle? && tx.phase.Erase?
    ensures tx.phase.file in tx.erased
  {
    hide HasUsages;
  }

  lemma EraseStep(db: Tables, seen: set<FileId>, tx: Txn, next: Txn)
    requires TxnInv(db, seen, tx) && !tx.op.WriteArticle? && tx.phase.Erase? && next == AdvanceErase(db, tx)
    ensures TxnInv(db, seen, next) && !next.phase.Failed?
  {
    hide PhaseOk;
    hide AdvanceErase;
    hide LocksReal;
    hide WritesGuarded;
    hide ErasedOk;
    ErasingFile(db, seen, tx);
    EraseNeverFails(db, seen, tx);
    EraseCommon(db, seen, tx, next);
    ErasePhase(db, seen, tx, next);
  }

  lemma PruneMoves(db: Tables, seen: set<FileId>, tx: Txn, next: Txn)
    requires Common(db, seen, tx) && FileCommon(db, tx) && tx.op.Prune? && PrunePhaseOk(db, tx)
    requires (tx.phase.Begin? && next == AdvanceBegin(db, tx))
          || (tx.phase.Collect? && next == tx.(phase := Sweep(tx.phase.taken)))
    ensures Common(db, seen, next) && FileCommon(db, next) && PrunePhaseOk(db, next)
  {
  }

  lemma PruneGo(s: State, t: TxnId, ok: bool)
    requires Inv(s) && Enabled(s, Go(t, ok)) && s.txns[t].op.Prune?
    ensures TxnInv(s.db, s.seen, Advance(s, t, ok))
  {
    hide Common;
    hide FileCommon;
    var db, seen, tx, next := s.db, s.seen, s.txns[t], Advance(s, t, ok);
    assert TxnInv(db, seen, tx);
    match tx.phase
    case Sweep(_) => PruneSweep(db, seen, tx, ok, next);
    case Erase(_, _) => EraseStep(db, seen, tx, next);
    case _ => PruneMoves(db, seen, tx, next);
  }

  lemma DeleteRun(db: Tables, seen: set<FileId>, tx: Txn, ok: bool, next: Txn)
    requires Common(db, seen, tx) && FileCommon(db, tx) && tx.op.DeleteFile? && DeletePhaseOk(db, seen, tx, tx.op.file)
    requires tx.phase.Run? && next == AdvanceRun(db, tx, ok)
    ensures Common(db, seen, next) && FileCommon(db, next) && DeletePhaseOk(db, seen, next, tx.op.file)
  {
    NoArticleWrite(db, tx, tx.op.file);
  }

  lemma DeleteMoves(db: Tables, seen: set<FileId>, tx: Txn, ok: bool, next: Txn)
    requires Common(db, seen, tx) && FileCommon(db, tx) && tx.op.DeleteFile? && DeletePhaseOk(db, seen, tx, tx.op.file)
    requires (tx.phase.Begin? && next == AdvanceBegin(db, tx)) || (tx.phase.Locking? && next == AdvanceLock(db, tx))
          || (tx.phase.Sweep? && next == AdvanceSweep(db, tx, ok))
    ensures Common(db, seen, next) && FileCommon(db, next) && DeletePhaseOk(db, seen, next, tx.op.file)
  {
    if tx.phase.Locking? { LockCommon(db, seen, tx, next); }
  }

  lemma DeleteGo(s: State, t: TxnId, ok: bool)
    requires Inv(s) && Enabled(s, Go(t, ok)) && s.txns[t].op.DeleteFile?
    ensures TxnInv(s.db, s.seen, Advance(s, t, ok))
  {
    hide Common;
    hide FileCommon;
    var db, seen, tx, next := s.db, s.seen, s.txns[t], Advance(s, t, ok);
    assert TxnInv(db, seen, tx);
    match tx.phase
    case Erase(_, _) => EraseStep(db, seen, tx, next);
    case Run(_) => DeleteRun(db, seen, tx, ok, next);
    case _ => DeleteMoves(db, seen, tx, ok, next);
  }

  lemma UploadRefresh(db: Tables, seen: set<FileId>, tx: Txn, ok: bool, next: Txn)
    requires Common(db, seen, tx) && FileCommon(db, tx) && tx.op.Upload? && UploadPhaseOk(db, seen, tx)
    requires tx.phase.Run? && OrphanMarksExact(db) && next == AdvanceRun(db, tx, ok)
    ensures Common(db, seen, next) && FileCommon(db, next) && UploadPhaseOk(db, seen, next)
  {
    var d := tx.phase.goal.duplicate;
    assert forall l :: l in tx.locks ==> l == FileLock(d);
    assert d !in db.files ==> tx.locks == {};
    if d in db.files { assert RefreshedAs(db, next, d); }
  }

  lemma UnseenUnused(db: Tables, seen: set<FileId>, f: FileId)
    requires ReferencesValid(db) && db.files.Keys <= seen && f !in seen
    ensures !HasUsages(db, f)
  {
    assert forall a :: a in db.articles ==> ArticleRefsOk(db, db.articles[a]);
  }

  lemma UploadInsert(s: State, t: TxnId, tx: Txn, next: Txn)
    requires ReferencesValid(s.db) && s.db.files.Keys <= s.seen && tx.phase.Insert? && next == AdvanceInsert(s, t, tx)
    requires Common(s.db, s.seen, tx) && FileCommon(s.db, tx) && tx.op.Upload? && UploadPhaseOk(s.db, s.seen, tx)
    ensures Common(s.db, s.seen, next) && FileCommon(s.db, next) && UploadPhaseOk(s.db, s.seen, next)
  {
    if tx.op.id !in s.seen { UnseenUnused(s.db, s.seen, tx.op.id); }
  }

  lemma UploadMoves(db: Tables, seen: set<FileId>, tx: Txn, next: Txn)
    requires Common(db, seen, tx) && FileCommon(db, tx) && tx.op.Upload? && UploadPhaseOk(db, seen, tx)
    requires (tx.phase.Locking? && next == AdvanceLock(db, tx))
          || (tx.phase.Put? && (next == tx.(phase := Ready) || next == Fail(tx)))
    ensures Common(db, seen, next) && FileCommon(db, next) && UploadPhaseOk(db, seen, next)
  {
    if tx.phase.Locking? { LockCommon(db, seen, tx, next); }
  }

  lemma UploadGo(s: State, t: TxnId, ok: bool)
    requires Inv(s) && Enabled(s, Go(t, ok)) && s.txns[t].op.Upload?
    ensures TxnInv(s.db, s.seen, Advance(s, t, ok))
  {
    hide Common;
    hide FileCommon;
    var db, seen, tx, next := s.db, s.seen, s.txns[t], Advance(s, t, ok);
    assert TxnInv(db, seen, tx);
    match tx.phase
    case Run(_) => UploadRefresh(db, seen, tx, ok, next);
    case Insert => UploadInsert(s, t, tx, next);
    case _ => UploadMoves(db, seen, tx, next);
  }

  // ---- one step of one transaction keeps the whole invariant ----

  lemma NewLock(s: State, t: TxnId, ok: bool, l: Lock)
    requires t in s.txns && l in Advance(s, t, ok).locks && l !in s.txns[t].locks
    ensures (s.txns[t].phase.Insert? && !HeldByOther(s, t, l)) || Wanted(s.db, s.txns[t]) == Some(l)
  {
  }

  /** A transaction only ever takes a lock that nobody else holds. */
  lemma GoLocks(s: State, t: TxnId, ok: bool, u: TxnId)
    requires LocksExclusive(s) && Enabled(s, Go(t, ok)) && u in s.txns && u != t
    ensures Advance(s, t, ok).locks !! s.txns[u].locks
  {
    hide Advance;
    forall l | l in Advance(s, t, ok).locks && l !in s.txns[t].locks ensures l !in s.txns[u].locks {
      NewLock(s, t, ok, l);
    }
  }

  lemma InsertedPhase(db: Tables, seen: set<FileId>, tx: Txn)
    requires TxnInv(db, seen, tx) && Inserted(tx)
    ensures tx.phase.Put? || tx.phase.Ready? || tx.phase.Failed?
  {
    hide Common;
  }

  /** What a statement does besides moving on: it keeps the operation, only adds to the erased
      files, inserts a row only when its object key is free, and is ready only after the upload. */
  lemma GoShape(s: State, t: TxnId, ok: bool, tx: Txn, next: Txn)
    requires t in s.txns && tx == s.txns[t] && next == Advance(s, t, ok)
    requires Inserted(tx) ==> tx.phase.Put? || tx.phase.Ready? || tx.phase.Failed?
    ensures next.op == tx.op && tx.erased <= next.erased
    ensures Inserted(next) && !Inserted(tx) ==> !ObjectTaken(s, t, tx.op.row.key) && next.phase.Put?
    ensures Inserted(tx) ==> Inserted(next) && next.erased == tx.erased
    ensures Inserted(tx) && next.phase.Ready? ==> tx.phase.Ready? || tx.phase.Put?
  {
  }

  lemma GoObjectsPresent(s: State, t: TxnId, ok: bool)
    requires Inv(s) && Enabled(s, Go(t, ok))
    ensures ObjectsPresent(Apply(s, Go(t, ok)))
  {
    hide TxnInv;
    hide Advance;
    var s', tx, next := Apply(s, Go(t, ok)), s.txns[t], Advance(s, t, ok);
    if Inserted(tx) { InsertedPhase(s.db, s.seen, tx); }
    GoShape(s, t, ok, tx, next);
    forall f | f in s.db.files ensures s.db.files[f].key in s'.objects || BeingErased(s', f) {
      if f in next.erased {
        assert f in s'.txns[t].erased;
      } else if s.db.files[f].key !in s.objects {
        var u :| u in s.txns && f in s.txns[u].erased;
        assert u in s'.txns && f in s'.txns[u].erased;
      }
    }
    forall u | u in s'.txns && Inserted(s'.txns[u]) && s'.txns[u].phase.Ready?
      ensures s'.txns[u].op.row.key in s'.objects
    {
      if u != t {
        assert s'.txns[u] == s.txns[u];
        assert s.txns[u].op.row.key in s.objects;
      }
    }
  }

  lemma GoInserts(s: State, t: TxnId, ok: bool)
    requires Inv(s) && Enabled(s, Go(t, ok))
    ensures InsertsUnique(Apply(s, Go(t, ok)))
  {
    hide TxnInv;
    hide Advance;
    if Inserted(s.txns[t]) { InsertedPhase(s.db, s.seen, s.txns[t]); }
    GoShape(s, t, ok, s.txns[t], Advance(s, t, ok));
  }

  lemma GoKeepsInv(s: State, t: TxnId, ok: bool)
    requires Inv(s) && Enabled(s, Go(t, ok))
    ensures Inv(Apply(s, Go(t, ok)))
  {
    hide TxnInv;
    hide Advance;
    hide InsertsUnique;
    hide ObjectsPresent;
    var s' := Apply(s, Go(t, ok));
    match s.txns[t].op {
      case WriteArticle(_, _, _, _) => ArticleGo(s, t, ok);
      case DeleteFile(_) => DeleteGo(s, t, ok);
      case Upload(_, _, _) => UploadGo(s, t, ok);
      case Prune(_, _) => PruneGo(s, t, ok);
    }
    GoObjectsPresent(s, t, ok);
    GoInserts(s, t, ok);
    forall u, v | u in s'.txns && v in s'.txns && u != v ensures s'.txns[u].locks !! s'.txns[v].locks {
      if u == t { GoLocks(s, t, ok, v); }
      if v == t { GoLocks(s, t, ok, u); }
    }
  }

  // ---- the other steps ----

  /** A step that changes one transaction and nothing else. */
  predicate OnlyChanges(s: State, s': State, t: TxnId) {
    && s'.txns.Keys == s.txns.Keys + {t} && s' == s.(txns := s'.txns)
    && forall u :: u in s.txns && u != t ==> s'.txns[u] == s.txns[u]
  }

  lemma LocalObjects(s: State, s': State, t: TxnId)
    requires InsertsUnique(s) && ObjectsPresent(s) && OnlyChanges(s, s', t) && !Inserted(s'.txns[t])
    requires t in s.txns ==> s'.txns[t].erased == s.txns[t].erased
    ensures InsertsUnique(s') && ObjectsPresent(s')
  {
    forall g | g in s.db.files && BeingErased(s, g) ensures BeingErased(s', g) {
      var u :| u in s.txns && g in s.txns[u].erased;
      assert g in s'.txns[u].erased;
    }
  }

  lemma LocalKeepsInv(s: State, s': State, t: TxnId)
    requires Inv(s) && OnlyChanges(s, s', t)
    requires forall u :: u in s.txns && u != t ==> s'.txns[t].locks !! s.txns[u].locks
    requires TxnInv(s.db, s.seen, s'.txns[t]) && !Inserted(s'.txns[t])
    requires t in s.txns ==> s'.txns[t].erased == s.txns[t].erased
    ensures Inv(s')
  {
    hide TxnInv;
    hide Consistent;
    hide InsertsUnique;
    hide ObjectsPresent;
    LocalObjects(s, s', t);
  }

  lemma TakeTxn(db: Tables, seen: set<FileId>, tx: Txn, f: FileId, next: Txn)
    requires TxnInv(db, seen, tx) && tx.op.Prune? && tx.phase.Collect? && Candidate(db, tx.op, f)
    requires FileLock(f) !in tx.locks
    requires next == tx.(phase := Collect(tx.phase.taken + [f]), locks := tx.locks + {FileLock(f)})
    ensures TxnInv(db, seen, next) && !Inserted(next)
  {
    var taken := tx.phase.taken;
    assert f !in taken;
    assert forall i :: 0 <= i < |taken| ==> taken[i] in taken;
    assert ToSweep(db, next, taken + [f]);
  }

  lemma TakeKeepsInv(s: State, t: TxnId, f: FileId)
    requires Inv(s) && Enabled(s, Take(t, f))
    ensures Inv(Apply(s, Take(t, f)))
  {
    hide TxnInv;
    TakeTxn(s.db, s.seen, s.txns[t], f, Apply(s, Take(t, f)).txns[t]);
    LocalKeepsInv(s, Apply(s, Take(t, f)), t);
  }

  lemma FindTxn(db: Tables, seen: set<FileId>, tx: Txn, d: Option<FileId>, next: Txn)
    requires TxnInv(db, seen, tx) && tx.op.Upload? && tx.phase.Begin?
    requires d.Some? ==> Duplicates(db, seen, tx.op, d.value)
    requires next == tx.(phase := if d.Some? then Locking([d.value], Refresh(d.value)) else Insert)
    ensures TxnInv(db, seen, next) && !Inserted(next)
  {
  }

  lemma FindKeepsInv(s: State, t: TxnId, d: Option<FileId>)
    requires Inv(s) && Enabled(s, Find(t, d))
    ensures Inv(Apply(s, Find(t, d)))
  {
    hide TxnInv;
    FindTxn(s.db, s.seen, s.txns[t], d, Apply(s, Find(t, d)).txns[t]);
    LocalKeepsInv(s, Apply(s, Find(t, d)), t);
  }

  lemma StartTxnOk(s: State, t: TxnId, op: Operation)
    requires Enabled(s, Start(t, op)) && NamesCommitted(s, Start(t, op))
    ensures TxnInv(s.db, s.seen, StartTxn(op))
  {
  }

  lemma StartKeepsInv(s: State, t: TxnId, op: Operation)
    requires Inv(s) && Enabled(s, Start(t, op)) && NamesCommitted(s, Start(t, op))
    ensures Inv(Apply(s, Start(t, op)))
  {
    hide TxnInv;
    StartTxnOk(s, t, op);
    LocalKeepsInv(s, Apply(s, Start(t, op)), t);
  }

  lemma AbortKeepsInv(s: State, t: TxnId)
    requires Inv(s) && Enabled(s, Abort(t))
    ensures Inv(Apply(s, Abort(t)))
  {
    hide TxnInv;
    hide Consistent;
    var s' := Apply(s, Abort(t));
    forall g | g in s.db.files && BeingErased(s, g) ensures BeingErased(s', g) {
      var u :| u in s.txns && g in s.txns[u].erased;
      assert u in s'.txns && g in s'.txns[u].erased;
    }
  }

  lemma StepKeepsInv(s: State, step: Step)
    requires Inv(s) && Enabled(s, step) && NamesCommitted(s, step)
    ensures Inv(Apply(s, step))
  {
    hide Inv;
    match step
    case Go(t, ok) => GoKeepsInv(s, t, ok);
    case Take(t, f) => TakeKeepsInv(s, t, f);
    case Commit(t) => CommitKeepsInv(s, t);
    case Start(t, op) => StartKeepsInv(s, t, op);
    case Find(t, d) => FindKeepsInv(s, t, d);
    case Abort(t) => AbortKeepsInv(s, t);
  }
}
