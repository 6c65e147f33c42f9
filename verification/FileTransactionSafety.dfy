/** What holds in every reachable state of every interleaving. */
module FileTransactionSafety {
  import opened Wrappers
  import opened FileDomain
  import opened Ordering
  import opened FileTransactions
  import opened FileTransactionInvariant
  import opened FileTransactionSteps
  import FileOperations

  lemma {:induction false} RunKeepsInv(states: seq<State>, steps: seq<Step>, i: nat)
    requires IsRun(states, steps) && i < |states|
    ensures Inv(states[i])
  {
    if i > 0 {
      RunKeepsInv(states, steps, i - 1);
      assert states[(i - 1) + 1] == Apply(states[i - 1], steps[i - 1]);
      StepKeepsInv(states[i - 1], steps[i - 1]);
    }
  }

  /** In every committed state the orphan marks are exact, references are valid and
      object keys are unique, whatever the interleaving. */
  lemma CommittedStatesConsistent(states: seq<State>, steps: seq<Step>, i: nat)
    requires IsRun(states, steps) && i < |states|
    ensures OrphanMarksExact(states[i].db)
    ensures ReferencesValid(states[i].db)
    ensures ObjectsUnique(states[i].db)
  {
    RunKeepsInv(states, steps, i);
  }

  /** However two or more users of `f` are removed concurrently, once no committed
      article uses `f` its row carries an orphan time. */
  lemma LastUsersOrphan(states: seq<State>, steps: seq<Step>, i: nat, f: FileId)
    requires IsRun(states, steps) && i < |states| && f in states[i].db.files
    requires forall a :: a in states[i].db.articles ==> f !in Managed(states[i].db.articles[a])
    ensures states[i].db.files[f].orphanedAt.Some?
  {
    RunKeepsInv(states, steps, i);
    assert !HasUsages(states[i].db, f);
  }

  /** Commits are atomic: whatever ran in between, the commit of an article request changes
      the committed rows exactly as the request would running alone on them. */
  lemma ArticleCommitIsSaveArticle(states: seq<State>, steps: seq<Step>, i: nat, t: TxnId)
    requires IsRun(states, steps) && i < |steps| && steps[i] == Commit(t)
    requires t in states[i].txns && states[i].txns[t].op.WriteArticle?
    ensures
      var op := states[i].txns[t].op;
      && states[i + 1].db == FileOperations.SaveArticle(states[i].db, op.article, op.after, op.now)
      && (op.creates <==> op.article !in states[i].db.articles)
      && (op.after.Some? ==> ArticleRefsOk(states[i].db, op.after.value))
  {
    hide ArticleBodyOk;
    var s, tx := states[i], states[i].txns[t];
    RunKeepsInv(states, steps, i);
    assert Enabled(s, steps[i]) && states[i + 1] == Apply(s, steps[i]);
    assert TxnInv(s.db, s.seen, tx);
    if tx.op.after.Some? { WrittenArticleRefs(s.db, s.seen, tx); }
    SettledIsSaveArticle(s.db, s.seen, tx);
    assert ArticleLock(tx.op.article) in tx.locks;
  }

  /** The pending rows of a settled article request, one file at a time. */
  lemma SettledRow(db: Tables, tx: Txn, f: FileId)
    requires tx.op.WriteArticle? && tx.wrote && f in db.files && Settled(db, tx) && WritesGuarded(db, tx)
    requires tx.erased == {}
    requires OrphanMarksExact(db) && tx.before == Current(db, tx.op.article)
    ensures
      var view := View(db, tx);
      && f in view.files
      && view.files[f] == if f in After(tx) then db.files[f].(orphanedAt := None)
                          else if f in Detached(tx) && !HasUsages(view, f)
                            then db.files[f].(orphanedAt := Some(tx.op.now))
                          else db.files[f]
  {
    var view := View(db, tx);
    if f in After(tx) {
      assert Uses(view, tx.op.article, f);
      assert Marked(view, f);
    } else if f in Detached(tx) {
      assert Uses(db, tx.op.article, f);
      assert Marked(view, f);
    } else {
      assert f !in tx.files;
    }
  }

  /** The same rows as the sequential save leaves them, one file at a time. */
  lemma SavedRow(db: Tables, tx: Txn, f: FileId)
    requires tx.op.WriteArticle? && f in db.files && tx.before == Current(db, tx.op.article)
    ensures
      var saved := FileOperations.SaveArticle(db, tx.op.article, tx.op.after, tx.op.now);
      && f in saved.files
      && saved.files[f] == if f in After(tx) then db.files[f].(orphanedAt := None)
                           else if f in Detached(tx) && !HasUsages(saved, f)
                             then db.files[f].(orphanedAt := Some(tx.op.now))
                           else db.files[f]
  {
    hide HasUsages;
    var saved := FileOperations.SaveArticle(db, tx.op.article, tx.op.after, tx.op.now);
    var linked := Tables(FileOperations.SetAttached(db.files, After(tx)), saved.articles);
    FileOperations.SameArticlesSameUsages(linked, saved, f);
  }

  lemma SettledArticle(db: Tables, seen: set<FileId>, tx: Txn)
    requires TxnInv(db, seen, tx) && tx.op.WriteArticle? && tx.phase.Ready?
    ensures tx.wrote && tx.erased == {} && Settled(db, tx) && WritesGuarded(db, tx)
    ensures tx.before == Current(db, tx.op.article)
  {
    hide Settled;
    hide WritesGuarded;
  }

  lemma SettledIsSaveArticle(db: Tables, seen: set<FileId>, tx: Txn)
    requires OrphanMarksExact(db) && TxnInv(db, seen, tx) && tx.op.WriteArticle? && tx.phase.Ready?
    ensures View(db, tx) == FileOperations.SaveArticle(db, tx.op.article, tx.op.after, tx.op.now)
  {
    hide TxnInv;
    hide Settled;
    hide WritesGuarded;
    hide OrphanMarksExact;
    hide HasUsages;
    hide ViewFiles;
    hide FileOperations.SaveArticle;
    var view, saved := View(db, tx), FileOperations.SaveArticle(db, tx.op.article, tx.op.after, tx.op.now);
    SettledArticle(db, seen, tx);
    FileOperations.SavedRows(db, tx.op.article, tx.op.after, tx.op.now);
    SettledKeys(db, seen, tx);
    forall f | f in db.files ensures view.files[f] == saved.files[f] {
      SettledRow(db, tx, f);
      SavedRow(db, tx, f);
      FileOperations.SameArticlesSameUsages(saved, view, f);
    }
    assert view.files == saved.files;
  }

  lemma SettledKeys(db: Tables, seen: set<FileId>, tx: Txn)
    requires TxnInv(db, seen, tx) && tx.op.WriteArticle? && tx.phase.Ready?
    ensures View(db, tx).files.Keys == db.files.Keys
  {
    assert forall f :: f in tx.files ==> FileLock(f) in tx.locks && f in db.files && tx.files[f].Some?;
  }

  /** The commit of a file deletion removes exactly that row, and no article uses it. */
  lemma DeleteCommitIsRemove(states: seq<State>, steps: seq<Step>, i: nat, t: TxnId)
    requires IsRun(states, steps) && i < |steps| && steps[i] == Commit(t)
    requires t in states[i].txns && states[i].txns[t].op.DeleteFile?
    ensures
      var s, f := states[i], states[i].txns[t].op.file;
      && f in s.db.files && !HasUsages(s.db, f)
      && states[i + 1].db == s.db.(files := s.db.files - {f})
  {
    hide TxnInv;
    var s, tx := states[i], states[i].txns[t];
    RunKeepsInv(states, steps, i);
    assert Enabled(s, steps[i]) && states[i + 1] == Apply(s, steps[i]);
    DeletedView(s.db, s.seen, tx);
  }

  lemma DeletedView(db: Tables, seen: set<FileId>, tx: Txn)
    requires TxnInv(db, seen, tx) && tx.op.DeleteFile? && tx.phase.Ready?
    ensures tx.op.file in db.files && !HasUsages(db, tx.op.file)
    ensures View(db, tx) == db.(files := db.files - {tx.op.file})
  {
    assert tx.op.file in tx.erased && tx.files == map[tx.op.file := None];
    assert ViewFiles(db, tx) == db.files - {tx.op.file};
  }

  /** In no run does RESTRICT refuse a row whose object is already gone: the statement that
      deletes the row always succeeds. */
  lemma EraseNeverRefused(states: seq<State>, steps: seq<Step>, i: nat, t: TxnId, ok: bool)
    requires IsRun(states, steps) && i < |steps| && steps[i] == Go(t, ok)
    requires t in states[i].txns && states[i].txns[t].phase.Erase?
    ensures
      var tx := states[i].txns[t];
      && t in states[i + 1].txns
      && states[i + 1].txns[t] == tx.(phase := Sweep(tx.phase.rest), files := tx.files[tx.phase.file := None])
  {
    var s, tx := states[i], states[i].txns[t];
    RunKeepsInv(states, steps, i);
    assert Enabled(s, steps[i]) && states[i + 1] == Apply(s, steps[i]);
    assert TxnInv(s.db, s.seen, tx);
    assert !tx.op.WriteArticle?;
    ErasingFile(s.db, s.seen, tx);
    EraseNeverFails(s.db, s.seen, tx);
  }

  lemma ErasedUnused(s: State, f: FileId)
    requires Inv(s) && BeingErased(s, f)
    ensures !HasUsages(s.db, f)
  {
    var t :| t in s.txns && f in s.txns[t].erased;
    assert TxnInv(s.db, s.seen, s.txns[t]);
  }

  /** A file that a committed article uses has its row, of the right purpose, and its object. */
  lemma UsedFilesKept(states: seq<State>, steps: seq<Step>, i: nat, a: ArticleId)
    requires IsRun(states, steps) && i < |states| && a in states[i].db.articles
    ensures ArticleRefsOk(states[i].db, states[i].db.articles[a])
    ensures forall f :: f in Managed(states[i].db.articles[a]) ==>
      f in states[i].db.files && states[i].db.files[f].key in states[i].objects
  {
    var s := states[i];
    RunKeepsInv(states, steps, i);
    assert ArticleRefsOk(s.db, s.db.articles[a]);
    forall f | f in Managed(s.db.articles[a]) ensures s.db.files[f].key in s.objects {
      assert Uses(s.db, a, f);
      if BeingErased(s, f) { ErasedUnused(s, f); }
    }
  }

  lemma UsedFileStays(s: State, step: Step, f: FileId)
    requires Inv(s) && Enabled(s, step) && NamesCommitted(s, step) && HasUsages(s.db, f) && f in s.db.files
    ensures f in Apply(s, step).db.files && s.db.files[f].key in Apply(s, step).objects
  {
    var s' := Apply(s, step);
    StepKeepsInv(s, step);
    var a :| a in s.db.articles && Uses(s.db, a, f);
    assert ArticleRefsOk(s.db, s.db.articles[a]);
    if step.Commit? {
      KeptArticleRefs(s.db, s.seen, s.txns[step.t], a, s.db.articles[a]);
      assert !BeingErased(s, f) by { if BeingErased(s, f) { ErasedUnused(s, f); } }
    } else {
      assert s'.db == s.db;
      assert !BeingErased(s', f) by { if BeingErased(s', f) { ErasedUnused(s', f); } }
    }
  }

  /** A step removes the row or the object only of a file that no committed article uses,
      however stale the usages were that prune chose its candidates by. */
  lemma RemovalsUnused(states: seq<State>, steps: seq<Step>, i: nat, f: FileId)
    requires IsRun(states, steps) && i < |steps| && f in states[i].db.files
    requires f !in states[i + 1].db.files || states[i].db.files[f].key !in states[i + 1].objects
    ensures !HasUsages(states[i].db, f) && states[i].db.files[f].orphanedAt.Some?
  {
    var s, step := states[i], steps[i];
    assert states[i + 1] == Apply(s, step);
    RunKeepsInv(states, steps, i);
    if HasUsages(s.db, f) { UsedFileStays(s, step, f); }
  }

  /** Between requests every file row has its own object. */
  lemma QuiescentObjects(states: seq<State>, steps: seq<Step>, i: nat)
    requires IsRun(states, steps) && i < |states| && states[i].txns == map[]
    ensures forall f :: f in states[i].db.files ==> states[i].db.files[f].key in states[i].objects
  {
    RunKeepsInv(states, steps, i);
  }

  // ---- deadlock freedom over the explicit row locks ----

  lemma LockIrreflexive(a: Lock)
    ensures !LockBefore(a, a)
  {
    match a {
      case ArticleLock(x) => LexIrreflexive(x);
      case FileLock(x) => LexIrreflexive(x);
    }
  }

  lemma LockTransitive(a: Lock, b: Lock, c: Lock)
    requires LockBefore(a, b) && LockBefore(b, c)
    ensures LockBefore(a, c)
  {
    match (a, b, c) {
      case (ArticleLock(x), ArticleLock(y), ArticleLock(z)) => LexTransitive(x, y, z);
      case (FileLock(x), FileLock(y), FileLock(z)) => LexTransitive(x, y, z);
      case _ =>
    }
  }

  lemma LockTotal(a: Lock, b: Lock)
    ensures a == b || LockBefore(a, b) || LockBefore(b, a)
  {
    match (a, b) {
      case (ArticleLock(x), ArticleLock(y)) => LexTotal(x, y);
      case (FileLock(x), FileLock(y)) => LexTotal(x, y);
      case _ =>
    }
  }

  /** A transaction that has to wait wants a lock above everything it holds. */
  lemma WaiterWantsAbove(db: Tables, seen: set<FileId>, tx: Txn, l: Lock)
    requires TxnInv(db, seen, tx) && Wanted(db, tx).Some? && Wanted(db, tx).value !in tx.locks && l in tx.locks
    ensures LockBefore(l, Wanted(db, tx).value)
  {
    if tx.op.WriteArticle? && tx.phase.Locking? {
      var todo := tx.phase.todo;
      assert todo[0] in todo && todo[0] in Transitioned(tx);
    }
  }

  predicate Waits(s: State, t: TxnId, u: TxnId) {
    && t in s.txns && u in s.txns && t != u
    && Wanted(s.db, s.txns[t]).Some? && Wanted(s.db, s.txns[t]).value in s.txns[u].locks
  }

  lemma WaitClimbs(s: State, t: TxnId, u: TxnId)
    requires Inv(s) && Waits(s, t, u) && Blocked(s, u)
    ensures LockBefore(Wanted(s.db, s.txns[t]).value, Wanted(s.db, s.txns[u]).value)
  {
    assert Wanted(s.db, s.txns[u]).value !in s.txns[u].locks;
    WaiterWantsAbove(s.db, s.seen, s.txns[u], Wanted(s.db, s.txns[t]).value);
  }

  /** Each transaction of `path` waits for the next one. */
  predicate WaitChain(s: State, path: seq<TxnId>) {
    |path| >= 2 && Waits(s, path[0], path[1]) && (|path| > 2 ==> WaitChain(s, path[1..]))
  }

  lemma {:induction false} ChainClimbs(s: State, path: seq<TxnId>, last: TxnId)
    requires Inv(s) && WaitChain(s, path) && last == path[|path| - 1]
    requires last in s.txns && Blocked(s, last)
    ensures LockBefore(Wanted(s.db, s.txns[path[0]]).value, Wanted(s.db, s.txns[last]).value)
  {
    WaitClimbs(s, path[0], path[1]);
    if |path| > 2 {
      ChainClimbs(s, path[1..], last);
      LockTransitive(Wanted(s.db, s.txns[path[0]]).value, Wanted(s.db, s.txns[path[1]]).value,
                     Wanted(s.db, s.txns[last]).value);
    }
  }

  /** No reachable state has a cycle of transactions each waiting for the next. */
  lemma NoWaitCycle(states: seq<State>, steps: seq<Step>, i: nat, path: seq<TxnId>)
    requires IsRun(states, steps) && i < |states| && WaitChain(states[i], path)
    ensures path[0] != path[|path| - 1]
  {
    var s := states[i];
    RunKeepsInv(states, steps, i);
    LockIrreflexive(Wanted(s.db, s.txns[path[0]]).value);
    if path[0] == path[|path| - 1] {
      ChainClimbs(s, path, path[0]);
    }
  }

  /** Prune never waits for a row lock. */
  lemma PruneNeverWaits(states: seq<State>, steps: seq<Step>, i: nat, t: TxnId)
    requires IsRun(states, steps) && i < |states| && t in states[i].txns && states[i].txns[t].op.Prune?
    ensures !Blocked(states[i], t)
  {
    var s := states[i];
    RunKeepsInv(states, steps, i);
    var tx := s.txns[t];
    assert TxnInv(s.db, s.seen, tx);
  }

  /** Some entry of a non-empty table of locks has no other entry above it. */
  lemma {:induction false} TopLock(wants: map<TxnId, Lock>) returns (top: TxnId)
    requires wants != map[]
    ensures top in wants && forall u :: u in wants ==> !LockBefore(wants[top], wants[u])
    decreases |wants|
  {
    top :| top in wants;
    var w, rest := wants[top], wants - {top};
    LockIrreflexive(w);
    assert rest.Keys == wants.Keys - {top};
    if rest != map[] {
      var other := TopLock(rest);
      var v := rest[other];
      LockTotal(v, w);
      if LockBefore(w, v) {
        if LockBefore(v, w) { LockTransitive(w, v, w); }
        assert forall u :: u in wants ==> u == top || u in rest;
        top := other;
      } else {
        forall u | u in wants ensures !LockBefore(w, wants[u]) {
          assert u == top || u in rest;
          if v != w && LockBefore(w, wants[u]) { LockTransitive(v, w, wants[u]); }
        }
      }
    } else {
      assert forall u :: u in wants ==> u == top || u in rest;
    }
  }

  /** Whoever is waited for and waits itself wants a higher lock. */
  ghost predicate WaitsClimb(s: State) {
    forall t, u :: Waits(s, t, u) && Blocked(s, u) ==>
      LockBefore(Wanted(s.db, s.txns[t]).value, Wanted(s.db, s.txns[u]).value)
  }

  lemma SomeoneUnblocked(s: State) returns (t: TxnId)
    requires WaitsClimb(s) && s.txns != map[]
    ensures t in s.txns && !Blocked(s, t)
  {
    t :| t in s.txns;
    if Blocked(s, t) {
      var wants := map u | u in s.txns && Blocked(s, u) :: Wanted(s.db, s.txns[u]).value;
      assert t in wants;
      var top := TopLock(wants);
      t :| t in s.txns && t != top && wants[top] in s.txns[t].locks;
      assert Waits(s, top, t);
      assert Blocked(s, t) ==> t in wants;
    }
  }

  lemma UnblockedTxn(s: State) returns (t: TxnId)
    requires Inv(s) && s.txns != map[]
    ensures t in s.txns && !Blocked(s, t)
  {
    hide Inv;
    forall t, u | Waits(s, t, u) && Blocked(s, u)
      ensures LockBefore(Wanted(s.db, s.txns[t]).value, Wanted(s.db, s.txns[u]).value)
    {
      WaitClimbs(s, t, u);
    }
    t := SomeoneUnblocked(s);
  }

  /** A step that carries a request on: it starts nothing, and it aborts only what has failed. */
  predicate CarriesOn(s: State, step: Step) {
    !step.Start? && (step.Abort? ==> step.t in s.txns && s.txns[step.t].phase.Failed?)
  }

  /** Whenever requests are running, one of them can go on: it holds or can get the lock of its
      next statement, or is ready to commit, or has failed and can be rolled back. */
  lemma SomeoneCanMove(states: seq<State>, steps: seq<Step>, i: nat) returns (step: Step)
    requires IsRun(states, steps) && i < |states| && states[i].txns != map[]
    ensures Enabled(states[i], step) && CarriesOn(states[i], step)
  {
    RunKeepsInv(states, steps, i);
    var t := UnblockedTxn(states[i]);
    step := MoveOf(states[i], t);
  }

  /** The lookup of an upload on the rows of `db` finds the oldest duplicate, if there is one. */
  lemma LookupIsOldest(db: Tables, row: FileRow)
    ensures
      var found := FileOperations.FindDuplicate(db, row.key.namespace, row.purpose, row.sha);
      && (found.Some? ==> Oldest(db, row, found.value))
      && (found.None? ==> forall f :: f in db.files ==> !SameContent(db.files[f], row))
  {
    var key := map f | && f in db.files && db.files[f].key.namespace == row.key.namespace
                       && db.files[f].purpose == row.purpose && db.files[f].sha == row.sha :: db.files[f].createdAt;
    ListingIsListing(key);
    assert forall f :: f in key <==> f in db.files && SameContent(db.files[f], row);
    if key.Keys != {} {
      ListingHead(key, Listing(key));
      var d := Listing(key)[0];
      assert forall g :: g in key && g != d ==> Before(key, d, g);
    }
    assert forall f :: f in Listing(key) <==> f in key;
  }

  lemma MoveOf(s: State, t: TxnId) returns (step: Step)
    requires Inv(s) && t in s.txns && !Blocked(s, t)
    ensures Enabled(s, step) && step.t == t && CarriesOn(s, step) && !step.Take?
  {
    var tx := s.txns[t];
    assert TxnInv(s.db, s.seen, tx);
    if tx.phase.Ready? {
      step := Commit(t);
    } else if tx.phase.Failed? {
      step := Abort(t);
    } else if tx.phase.Begin? && tx.op.Upload? {
      LookupIsOldest(s.db, tx.op.row);
      step := Find(t, FileOperations.FindDuplicate(s.db, tx.op.row.key.namespace, tx.op.row.purpose, tx.op.row.sha));
    } else {
      step := Go(t, true);
    }
  }
}
