/** When a request fails and what it does undisturbed: requests fail only for the reasons the use
    cases name, and a request that runs alone does exactly what the sequential one does. */
module FileTransactionOutcomes {
  import opened Wrappers
  import opened FileDomain
  import opened Ordering
  import opened FileTransactions
  import opened FileTransactionInvariant
  import opened FileTransactionSteps
  import opened FileTransactionSafety
  import opened FileTransactionCommits
  import opened FileTransactionProgress
  import FileOperations
  import FileHistory

  // ---- why a request fails ----

  /** What makes request `t` fail at its next statement, said over the rows and not over the
      statement: the article is missing, a reference is wrong, the file is missing or in use, the
      new id or key is taken, the object store fails. Prune never fails. */
  predicate Refused(s: State, t: TxnId, clientOk: bool)
    requires t in s.txns
  {
    match s.txns[t].op
    case WriteArticle(a, after, creates, _) =>
      (!creates && a !in s.db.articles) || (after.Some? && !ArticleRefsOk(s.db, after.value))
    case DeleteFile(f) => f !in s.db.files || HasUsages(s.db, f) || !clientOk
    case Upload(id, row, _) =>
      id in s.seen || HeldByOther(s, t, FileLock(id)) || ObjectTaken(s, t, row.key) || !clientOk
    case Prune(_, _) => false
  }

  /** A check that is still to come is of the article's own cover or of its own content. */
  predicate ChecksOwn(tx: Txn) {
    tx.op.WriteArticle? && tx.phase.Check? ==> forall r :: r in tx.phase.refs ==> References(tx.op.after, r)
  }

  predicate References(a: Option<Article>, r: Ref) {
    && a.Some?
    && (|| (r.purpose == ArticleCoverImage && a.value.cover == Some(r.file))
        || (r.purpose == ArticleContentImage && r.file in a.value.content))
  }

  lemma RefsAreOwn(a: Option<Article>)
    ensures forall r :: r in RefsOf(a) ==> References(a, r)
  {
    if a.Some? {
      var ids := SortIds(a.value.content);
      assert forall i :: 0 <= i < |ids| ==> ids[i] in ids;
    }
  }

  lemma AdvanceChecksOwn(s: State, t: TxnId, ok: bool)
    requires t in s.txns && ChecksOwn(s.txns[t])
    ensures ChecksOwn(Advance(s, t, ok))
  {
    hide RefsOf;
    hide References;
    var tx := s.txns[t];
    if tx.op.WriteArticle? { RefsAreOwn(tx.op.after); }
    if tx.phase.Check? && tx.phase.refs != [] {
      assert forall r :: r in tx.phase.refs[1..] ==> r in tx.phase.refs;
    }
  }

  lemma StepChecksOwn(s: State, step: Step)
    requires Enabled(s, step) && forall t :: t in s.txns ==> ChecksOwn(s.txns[t])
    ensures forall t :: t in Apply(s, step).txns ==> ChecksOwn(Apply(s, step).txns[t])
  {
    hide References;
    hide Advance;
    if step.Go? { AdvanceChecksOwn(s, step.t, step.clientOk); }
  }

  lemma {:induction false} RunChecksOwn(states: seq<State>, steps: seq<Step>, i: nat)
    requires IsRun(states, steps) && i < |states|
    ensures forall t :: t in states[i].txns ==> ChecksOwn(states[i].txns[t])
  {
    hide ChecksOwn;
    hide Apply;
    hide Enabled;
    if i > 0 {
      RunChecksOwn(states, steps, i - 1);
      assert Enabled(states[i - 1], steps[i - 1]) && states[(i - 1) + 1] == Apply(states[i - 1], steps[i - 1]);
      StepChecksOwn(states[i - 1], steps[i - 1]);
    }
  }

  lemma ArticleStatementFails(db: Tables, seen: set<FileId>, tx: Txn, ok: bool)
    requires tx.op.WriteArticle? && ArticleBodyOk(db, seen, tx) && ChecksOwn(tx)
    ensures tx.phase.Check? && AdvanceCheck(db, tx).phase.Failed? ==>
      tx.op.after.Some? && !ArticleRefsOk(db, tx.op.after.value)
    ensures tx.phase.Run? && AdvanceRun(db, tx, ok).phase.Failed? ==>
      tx.op.after.Some? && !ArticleRefsOk(db, tx.op.after.value)
  {
    hide RefsOf;
    hide View;
    hide SortIds;
    if tx.phase.Run? { GoalOfArticle(db, seen, tx); }
    hide ArticleBodyOk;
    if tx.phase.Check? && tx.phase.refs != [] { assert References(tx.op.after, tx.phase.refs[0]); }
  }

  lemma ArticleFails(s: State, t: TxnId, ok: bool)
    requires Inv(s) && t in s.txns && ChecksOwn(s.txns[t]) && s.txns[t].op.WriteArticle?
    requires !s.txns[t].phase.Failed? && Advance(s, t, ok).phase.Failed?
    ensures Refused(s, t, ok)
  {
    hide ArticleBodyOk;
    hide ChecksOwn;
    hide ArticleRefsOk;
    hide AdvanceCheck;
    hide AdvanceRun;
    var tx := s.txns[t];
    assert TxnInv(s.db, s.seen, tx);
    if !tx.phase.Begin? {
      if !tx.phase.Ready? { ArticleRunning(s.db, s.seen, tx); }
      ArticleStatementFails(s.db, s.seen, tx, ok);
    }
  }

  lemma FileRequestFails(s: State, t: TxnId, ok: bool)
    requires Inv(s) && t in s.txns && !s.txns[t].op.WriteArticle?
    requires !s.txns[t].phase.Failed? && Advance(s, t, ok).phase.Failed?
    ensures Refused(s, t, ok)
  {
    var tx := s.txns[t];
    assert TxnInv(s.db, s.seen, tx);
    if tx.phase.Erase? {
      ErasingFile(s.db, s.seen, tx);
      EraseNeverFails(s.db, s.seen, tx);
    } else if tx.phase == Run(Inspect) {
      NoArticleWrite(s.db, tx, tx.op.file);
    }
  }

  /** In every run a request comes to fail only by a statement of its own, and only if it is
      refused by the rows as they are at that statement. */
  lemma FailsOnlyIfRefused(states: seq<State>, steps: seq<Step>, i: nat, t: TxnId)
    requires IsRun(states, steps) && i < |steps| && t in states[i + 1].txns && states[i + 1].txns[t].phase.Failed?
    requires t in states[i].txns ==> !states[i].txns[t].phase.Failed?
    ensures t in states[i].txns && steps[i].Go? && steps[i].t == t && Refused(states[i], t, steps[i].clientOk)
  {
    hide Refused;
    hide ChecksOwn;
    hide Advance;
    hide Inv;
    var s, step := states[i], steps[i];
    assert Enabled(s, step) && states[i + 1] == Apply(s, step);
    RunKeepsInv(states, steps, i);
    RunChecksOwn(states, steps, i);
    assert step.Go? && step.t == t;
    if s.txns[t].op.WriteArticle? {
      ArticleFails(s, t, step.clientOk);
    } else {
      FileRequestFails(s, t, step.clientOk);
    }
  }

  // ---- a request on its own ----

  /** The sequential request with the same effect; `clientOk` for its object-store call. */
  function Outcome(st: FileOperations.Store, op: Operation, clientOk: bool): FileOperations.Store
    requires !op.Prune?
  {
    match op
    case WriteArticle(a, after, creates, now) =>
      if (creates <==> a !in st.db.articles) && (after.Some? ==> ArticleRefsOk(st.db, after.value))
      then st.(db := FileOperations.SaveArticle(st.db, a, after, now)) else st
    case DeleteFile(f) => FileOperations.Remove(st, f, clientOk)
    case Upload(id, row, now) => FileOperations.Upload(st, id, row.purpose, row.key, row.sha, now, clientOk)
  }

  function StoreOf(s: State): FileOperations.Store {
    FileOperations.Store(s.db, s.objects)
  }

  /** What the object store holds when `tx` is the only request that has run since `base`. */
  function ObjectsBy(base: State, tx: Txn): set<ObjectKey> {
    base.objects + (if Inserted(tx) && tx.phase.Ready? then {tx.op.row.key} else {})
    - (set f | f in tx.erased && f in base.db.files :: base.db.files[f].key)
  }

  /** The upload goes by the duplicate that the rows of `db` show. */
  predicate GoesBy(db: Tables, tx: Txn) {
    && tx.op.Upload?
    && var d := DuplicateIn(db, tx.op);
       match tx.phase
       case Begin => true
       case Locking(_, goal) => d.Some? && goal == Refresh(d.value)
       case Run(goal) => d.Some? && goal == Refresh(d.value)
       case Ready => if d.None? then tx.wrote else !tx.wrote && RefreshedAs(db, tx, d.value)
       case _ => d.None?
  }

  /** Request `t` alone is running since the quiet state `base`, and with client calls that end
      as `ok` says it has failed only if it leaves everything as it is. */
  predicate Alone(base: State, s: State, t: TxnId, ok: bool) {
    && s.db == base.db && s.seen == base.seen && s.txns.Keys == {t}
    && var tx := s.txns[t];
       && !tx.op.Prune? && ChecksOwn(tx) && s.objects == ObjectsBy(base, tx)
       && (tx.op.Upload? ==> GoesBy(base.db, tx) && FreshId(base, tx.op))
       && (PastClient(tx) ==> ok)
       && (tx.phase.Failed? ==> tx.erased == {} && Outcome(StoreOf(base), tx.op, ok) == StoreOf(base))
  }

  /** The object-store call of the request has succeeded. */
  predicate PastClient(tx: Txn) {
    || (tx.op.DeleteFile? && (tx.phase.Erase? || tx.phase.Sweep? || tx.phase.Ready?))
    || (Inserted(tx) && tx.phase.Ready?)
  }

  /** An id that was ever committed is refused, by the table as long as the row exists. */
  predicate FreshId(s: State, op: Operation)
    requires op.Upload?
  {
    op.id in s.seen ==> op.id in s.db.files || DuplicateIn(s.db, op).Some?
  }

  function NextAlone(s: State, t: TxnId, ok: bool): Step
    requires t in s.txns
  {
    var tx := s.txns[t];
    if tx.phase.Begin? && tx.op.Upload? then Find(t, DuplicateIn(s.db, tx.op)) else Go(t, ok)
  }

  lemma AloneIsEnabled(base: State, s: State, t: TxnId, ok: bool)
    requires Alone(base, s, t, ok) && !s.txns[t].phase.Ready? && !s.txns[t].phase.Failed?
    ensures Enabled(s, NextAlone(s, t, ok)) && !Blocked(s, t)
  {
    hide ChecksOwn;
    if s.txns[t].op.Upload? { LookupIsOldest(s.db, s.txns[t].op.row); }
  }

  lemma RefusedAlone(base: State, s: State, t: TxnId, ok: bool)
    requires Alone(base, s, t, ok) && Refused(s, t, ok)
    requires s.txns[t].op.Upload? ==> DuplicateIn(s.db, s.txns[t].op).None?
    ensures Outcome(StoreOf(base), s.txns[t].op, ok) == StoreOf(base)
  {
    hide HasUsages;
    hide FileOperations.SaveArticle;
    hide ChecksOwn;
    assert forall u :: u in s.txns ==> u == t;
  }

  /** The statements of an upload after its lookup, on the rows it looked in. */
  lemma UploadAdvances(db: Tables, seen: set<FileId>, tx: Txn, ok: bool, next: Txn)
    requires tx.op.Upload? && UploadPhaseOk(db, seen, tx) && GoesBy(db, tx)
    requires (tx.phase.Locking? && next == AdvanceLock(db, tx)) || (tx.phase.Run? && next == AdvanceRun(db, tx, ok))
    ensures GoesBy(db, next) && next.erased == {} && !Inserted(next)
  {
    hide View;
    hide DuplicateIn;
    FoundThere(db, tx.op);
  }

  lemma FoundThere(db: Tables, op: Operation)
    requires op.Upload?
    ensures DuplicateIn(db, op).Some? ==> DuplicateIn(db, op).value in db.files
  {
    LookupIsOldest(db, op.row);
  }

  lemma AloneUpload(base: State, s: State, t: TxnId, ok: bool)
    requires Inv(s) && Alone(base, s, t, ok) && !s.txns[t].phase.Begin? && s.txns[t].op.Upload?
    requires !s.txns[t].phase.Ready? && !s.txns[t].phase.Failed?
    ensures
      var next := Advance(s, t, ok);
      && GoesBy(base.db, next) && ObjectsBy(base, next) == AdvanceObjects(s, s.txns[t], next)
      && (PastClient(next) ==> ok)
  {
    hide Common;
    hide FileCommon;
    hide ChecksOwn;
    hide FreshId;
    hide AdvanceLock;
    hide AdvanceRun;
    hide DuplicateIn;
    hide ObjectTaken;
    var tx := s.txns[t];
    assert TxnInv(s.db, s.seen, tx);
    if tx.phase.Locking? || tx.phase.Run? {
      SameOperation(s, t, ok);
      UploadAdvances(s.db, s.seen, tx, ok, Advance(s, t, ok));
    }
  }

  lemma ErasesOnlyThere(s: State, t: TxnId, ok: bool)
    requires t in s.txns && s.txns[t].phase != Run(Inspect) && !s.txns[t].phase.Sweep?
    ensures Advance(s, t, ok).erased == s.txns[t].erased
  {
    hide View;
    hide HasUsages;
  }

  lemma ArticleErasesNothing(s: State, t: TxnId, ok: bool)
    requires Inv(s) && t in s.txns && s.txns[t].op.WriteArticle? && !s.txns[t].phase.Failed?
    ensures s.txns[t].erased == {} && Advance(s, t, ok).erased == {} && !PastClient(Advance(s, t, ok))
  {
    hide ArticleBodyOk;
    hide Advance;
    var tx := s.txns[t];
    assert TxnInv(s.db, s.seen, tx);
    if !tx.phase.Begin? && !tx.phase.Ready? {
      ArticleRunning(s.db, s.seen, tx);
      if tx.phase.Run? { GoalOfArticle(s.db, s.seen, tx); }
    }
    ErasesOnlyThere(s, t, ok);
    SameOperation(s, t, ok);
  }

  lemma DeleteErases(db: Tables, seen: set<FileId>, tx: Txn, ok: bool, next: Txn)
    requires tx.op.DeleteFile? && DeletePhaseOk(db, seen, tx, tx.op.file) && (PastClient(tx) ==> ok)
    requires (tx.phase.Locking? && next == AdvanceLock(db, tx)) || (tx.phase.Run? && next == AdvanceRun(db, tx, ok))
          || (tx.phase.Erase? && next == tx.(phase := Sweep(tx.phase.rest), files := tx.files[tx.phase.file := None]))
          || (tx.phase.Sweep? && next == AdvanceSweep(db, tx, ok))
    ensures tx.erased <= next.erased && next.op == tx.op
    ensures next.phase.Failed? ==> next.erased == {}
    ensures PastClient(next) ==> ok
  {
    hide View;
    hide HasUsages;
  }

  lemma AloneObjects(base: State, s: State, t: TxnId, ok: bool)
    requires Inv(s) && Alone(base, s, t, ok) && !s.txns[t].op.Upload?
    requires !s.txns[t].phase.Ready? && !s.txns[t].phase.Failed?
    ensures
      var next := Advance(s, t, ok);
      && ObjectsBy(base, next) == AdvanceObjects(s, s.txns[t], next)
      && (next.phase.Failed? ==> next.erased == {})
      && (PastClient(next) ==> ok)
  {
    hide ArticleBodyOk;
    hide ChecksOwn;
    hide Common;
    hide FileCommon;
    hide AdvanceLock;
    hide AdvanceRun;
    hide AdvanceSweep;
    hide AdvanceErase;
    var tx, next := s.txns[t], Advance(s, t, ok);
    assert TxnInv(s.db, s.seen, tx);
    SameOperation(s, t, ok);
    if tx.op.WriteArticle? {
      ArticleErasesNothing(s, t, ok);
    } else if !tx.phase.Begin? {
      if tx.phase.Erase? { EraseSucceeds(s.db, s.seen, tx); }
      DeleteErases(s.db, s.seen, tx, ok, next);
    }
  }

  lemma EraseSucceeds(db: Tables, seen: set<FileId>, tx: Txn)
    requires TxnInv(db, seen, tx) && !tx.op.WriteArticle? && tx.phase.Erase?
    ensures AdvanceErase(db, tx) == tx.(phase := Sweep(tx.phase.rest), files := tx.files[tx.phase.file := None])
  {
    hide AdvanceErase;
    hide HasUsages;
    ErasingFile(db, seen, tx);
    EraseNeverFails(db, seen, tx);
  }

  lemma AloneGo(base: State, s: State, t: TxnId, ok: bool)
    requires Inv(s) && Alone(base, s, t, ok) && NextAlone(s, t, ok) == Go(t, ok)
    requires !s.txns[t].phase.Ready? && !s.txns[t].phase.Failed? && Enabled(s, Go(t, ok))
    ensures Alone(base, Apply(s, Go(t, ok)), t, ok)
  {
    hide Inv;
    hide Advance;
    hide ChecksOwn;
    hide GoesBy;
    hide Outcome;
    hide Refused;
    hide FreshId;
    hide ObjectsBy;
    hide AdvanceObjects;
    hide Blocked;
    hide PastClient;
    var tx, next := s.txns[t], Advance(s, t, ok);
    SameOperation(s, t, ok);
    AdvanceChecksOwn(s, t, ok);
    if tx.op.Upload? { AloneUpload(base, s, t, ok); } else { AloneObjects(base, s, t, ok); }
    if next.phase.Failed? {
      if tx.op.WriteArticle? { ArticleFails(s, t, ok); } else { FileRequestFails(s, t, ok); }
      if tx.op.Upload? { FailedUpload(s, t, ok); FoundNone(base, next); }
      RefusedAlone(base, s, t, ok);
    }
  }

  lemma FailedUpload(s: State, t: TxnId, ok: bool)
    requires Inv(s) && t in s.txns && s.txns[t].op.Upload? && !s.txns[t].phase.Begin?
    ensures Advance(s, t, ok).erased == {}
  {
    assert TxnInv(s.db, s.seen, s.txns[t]);
  }

  lemma FoundNone(base: State, tx: Txn)
    requires tx.op.Upload? && tx.phase.Failed? && GoesBy(base.db, tx)
    ensures DuplicateIn(base.db, tx.op).None?
  {
  }

  lemma AloneFind(base: State, s: State, t: TxnId, ok: bool)
    requires Inv(s) && Alone(base, s, t, ok) && s.txns[t].op.Upload? && s.txns[t].phase.Begin?
    requires Enabled(s, NextAlone(s, t, ok))
    ensures Alone(base, Apply(s, NextAlone(s, t, ok)), t, ok)
  {
    hide FreshId;
    hide DuplicateIn;
    assert TxnInv(s.db, s.seen, s.txns[t]);
  }

  lemma ArticleCommit(db: Tables, seen: set<FileId>, tx: Txn)
    requires TxnInv(db, seen, tx) && OrphanMarksExact(db) && tx.op.WriteArticle? && tx.phase.Ready?
    requires db.files.Keys <= seen
    ensures tx.op.creates <==> tx.op.article !in db.articles
    ensures tx.op.after.Some? ==> ArticleRefsOk(db, tx.op.after.value)
    ensures tx.erased == {} && View(db, tx) == FileOperations.SaveArticle(db, tx.op.article, tx.op.after, tx.op.now)
  {
    hide ArticleBodyOk;
    hide View;
    hide FileOperations.SaveArticle;
    if tx.op.after.Some? { WrittenArticleRefs(db, seen, tx); }
    SettledIsSaveArticle(db, seen, tx);
    assert ArticleLock(tx.op.article) in tx.locks;
  }

  lemma AloneUploadCommits(base: State, s: State, t: TxnId, ok: bool)
    requires Inv(s) && Alone(base, s, t, ok) && s.txns[t].phase.Ready? && s.txns[t].op.Upload?
    ensures FileOperations.Store(View(s.db, s.txns[t]), s.objects) == Outcome(StoreOf(base), s.txns[t].op, ok)
  {
    hide TxnInv;
    hide View;
    hide ChecksOwn;
    hide FreshId;
    hide RefreshedAs;
    hide FileOperations.FindDuplicate;
    hide FileOperations.KeyTaken;
    hide FileOperations.Refresh;
    var tx := s.txns[t];
    UploadReady(s.db, s.seen, tx);
    if tx.wrote {
      InsertedView(s.db, s.seen, tx);
      InsertedKey(s, t);
    } else {
      FoundThere(s.db, tx.op);
      RefreshedView(s.db, tx, DuplicateIn(s.db, tx.op).value);
    }
  }

  /** What the request leaves when it commits alone. */
  lemma AloneCommits(base: State, s: State, t: TxnId, ok: bool)
    requires Inv(s) && Alone(base, s, t, ok) && s.txns[t].phase.Ready?
    ensures FileOperations.Store(View(s.db, s.txns[t]), s.objects) == Outcome(StoreOf(base), s.txns[t].op, ok)
  {
    hide TxnInv;
    hide View;
    hide FileOperations.SaveArticle;
    hide FileOperations.Upload;
    hide ChecksOwn;
    hide GoesBy;
    hide HasUsages;
    hide FreshId;
    hide ArticleRefsOk;
    var tx := s.txns[t];
    match tx.op
    case WriteArticle(_, _, _, _) => ArticleCommit(s.db, s.seen, tx);
    case DeleteFile(f) =>
      DeletedView(s.db, s.seen, tx);
      DeletedOne(s.db, s.seen, tx);
    case Upload(_, _, _) => AloneUploadCommits(base, s, t, ok);
  }

  lemma DeletedOne(db: Tables, seen: set<FileId>, tx: Txn)
    requires TxnInv(db, seen, tx) && tx.op.DeleteFile? && tx.phase.Ready?
    ensures tx.erased == {tx.op.file}
  {
  }

  lemma UploadReady(db: Tables, seen: set<FileId>, tx: Txn)
    requires TxnInv(db, seen, tx) && tx.op.Upload?
    ensures tx.erased == {} && NewRow(tx.op)
  {
  }

  /** `states'` and `steps'` continue a run by steps of request `t` only, which is never aborted
      unless it has failed, and end with no request running. */
  ghost predicate Finishes(states: seq<State>, steps: seq<Step>, t: TxnId, states': seq<State>, steps': seq<Step>) {
    && IsRun(states', steps') && states <= states' && steps <= steps'
    && (forall i :: |steps| <= i < |steps'| ==> steps'[i].t == t && CarriesOn(states'[i], steps'[i]))
    && states'[|steps'|].txns == map[]
  }

  /** The state that request `t` leaves when it ends. */
  lemma AloneEnds(base: State, s: State, t: TxnId, ok: bool) returns (step: Step)
    requires Inv(s) && Inv(base) && Alone(base, s, t, ok) && (s.txns[t].phase.Ready? || s.txns[t].phase.Failed?)
    ensures Enabled(s, step) && step.t == t && CarriesOn(s, step)
    ensures
      var s' := Apply(s, step);
      && s'.txns == map[] && StoreOf(s') == Outcome(StoreOf(base), s.txns[t].op, ok)
      && s'.seen == base.seen + s'.db.files.Keys
  {
    hide TxnInv;
    hide View;
    hide Outcome;
    hide GoesBy;
    hide ChecksOwn;
    if s.txns[t].phase.Failed? {
      step := Abort(t);
    } else {
      step := Commit(t);
      AloneCommits(base, s, t, ok);
    }
    assert (s.txns - {t}).Keys == {};
  }

  lemma {:induction false} FinishAlone(states: seq<State>, steps: seq<Step>, base: State, t: TxnId, ok: bool)
    returns (states': seq<State>, steps': seq<Step>)
    requires IsRun(states, steps) && Inv(base) && Alone(base, states[|steps|], t, ok)
    ensures Finishes(states, steps, t, states', steps')
    ensures
      var s' := states'[|steps'|];
      && StoreOf(s') == Outcome(StoreOf(base), states[|steps|].txns[t].op, ok)
      && s'.seen == base.seen + s'.db.files.Keys
    decreases Work(states[|steps|].db, states[|steps|].txns[t])
  {
    hide Inv;
    hide Apply;
    hide Enabled;
    hide Work;
    hide Outcome;
    hide ChecksOwn;
    hide GoesBy;
    hide ObjectsBy;
    var s := states[|steps|];
    RunKeepsInv(states, steps, |steps|);
    if s.txns[t].phase.Ready? || s.txns[t].phase.Failed? {
      var step := AloneEnds(base, s, t, ok);
      RunOn(states, steps, step);
      states', steps' := states + [Apply(s, step)], steps + [step];
    } else {
      var step := NextAlone(s, t, ok);
      AloneIsEnabled(base, s, t, ok);
      AloneMoves(base, s, t, ok);
      RunOn(states, steps, step);
      states', steps' := FinishAlone(states + [Apply(s, step)], steps + [step], base, t, ok);
    }
  }

  lemma AloneMoves(base: State, s: State, t: TxnId, ok: bool)
    requires Inv(s) && Alone(base, s, t, ok) && !s.txns[t].phase.Ready? && !s.txns[t].phase.Failed?
    requires Enabled(s, NextAlone(s, t, ok))
    ensures
      var s' := Apply(s, NextAlone(s, t, ok));
      Alone(base, s', t, ok) && s'.txns[t].op == s.txns[t].op && Work(s'.db, s'.txns[t]) < Work(s.db, s.txns[t])
  {
    hide Inv;
    hide Work;
    hide Alone;
    hide Advance;
    hide DuplicateIn;
    if s.txns[t].phase.Begin? && s.txns[t].op.Upload? {
      FindWorks(s, t, DuplicateIn(s.db, s.txns[t].op));
      AloneFind(base, s, t, ok);
    } else {
      SameOperation(s, t, ok);
      AloneGo(base, s, t, ok);
      if s.txns[t].op.WriteArticle? { ArticleGoWorks(s, t, ok); } else { FileGoWorks(s, t, ok); }
    }
  }
}
