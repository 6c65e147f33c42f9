/** What the commit of an upload or of a prune is, in the terms of the sequential requests. */
module FileTransactionCommits {
  import opened Wrappers
  import opened FileDomain
  import opened Ordering
  import opened FileTransactions
  import opened FileTransactionInvariant
  import opened FileTransactionSteps
  import opened FileTransactionSafety
  import FileOperations
  import FileHistory

  // ---- upload ----

  /** The sequential upload of the same request on the rows of `db`. */
  function UploadAlone(db: Tables, op: Operation): Tables
    requires op.Upload?
  {
    FileOperations.Upload(FileOperations.Store(db, {}), op.id, op.row.purpose, op.row.key, op.row.sha, op.now, true).db
  }

  function DuplicateIn(db: Tables, op: Operation): Option<FileId>
    requires op.Upload?
  {
    FileOperations.FindDuplicate(db, op.row.key.namespace, op.row.purpose, op.row.sha)
  }

  /** A commit publishes the view of a ready transaction. */
  lemma AtCommit(states: seq<State>, steps: seq<Step>, i: nat, t: TxnId)
    requires IsRun(states, steps) && i < |steps| && steps[i] == Commit(t) && t in states[i].txns
    ensures Inv(states[i]) && TxnInv(states[i].db, states[i].seen, states[i].txns[t]) && states[i].txns[t].phase.Ready?
    ensures states[i + 1].db == View(states[i].db, states[i].txns[t])
  {
    hide TxnInv;
    RunKeepsInv(states, steps, i);
    assert Enabled(states[i], steps[i]) && states[i + 1] == Apply(states[i], steps[i]);
  }

  lemma InsertedView(db: Tables, seen: set<FileId>, tx: Txn)
    requires TxnInv(db, seen, tx) && tx.op.Upload? && tx.wrote && tx.phase.Ready?
    ensures tx.op.id !in db.files && NewRow(tx.op) && View(db, tx) == db.(files := db.files[tx.op.id := tx.op.row])
  {
    assert FileLock(tx.op.id) in tx.locks;
    assert ViewFiles(db, tx) == db.files[tx.op.id := tx.op.row];
  }

  lemma InsertedKey(s: State, t: TxnId)
    requires Inv(s) && t in s.txns && Inserted(s.txns[t]) && s.txns[t].phase.Ready?
    ensures !FileOperations.KeyTaken(s.db, s.txns[t].op.row.key) && s.txns[t].op.row.key in s.objects
  {
    hide TxnInv;
  }

  lemma InsertedAlone(db: Tables, op: Operation)
    requires op.Upload? && NewRow(op) && op.id !in db.files && !FileOperations.KeyTaken(db, op.row.key)
    requires DuplicateIn(db, op).None?
    ensures UploadAlone(db, op) == db.(files := db.files[op.id := op.row])
  {
  }

  lemma RefreshedView(db: Tables, tx: Txn, d: FileId)
    requires tx.op.Upload? && RefreshedAs(db, tx, d)
    ensures View(db, tx) == FileOperations.Refresh(db, d, tx.op.now)
    ensures DuplicateIn(db, tx.op) == Some(d) ==> View(db, tx) == UploadAlone(db, tx.op)
  {
    assert ViewFiles(db, tx) == FileOperations.Refresh(db, d, tx.op.now).files;
  }

  lemma RefreshedReady(db: Tables, seen: set<FileId>, tx: Txn) returns (d: FileId)
    requires TxnInv(db, seen, tx) && tx.op.Upload? && !tx.wrote && tx.phase.Ready?
    ensures RefreshedAs(db, tx, d)
  {
    d :| RefreshedAs(db, tx, d);
  }

  // ---- what committed rows keep over a run ----

  lemma StepRows(s: State, step: Step, f: FileId)
    requires Inv(s) && Enabled(s, step) && f in s.seen
    ensures f in Apply(s, step).seen && (f in Apply(s, step).db.files ==> f in s.db.files)
    ensures f in Apply(s, step).db.files ==> SameFile(s.db.files[f], Apply(s, step).db.files[f])
  {
    hide TxnInv;
    if step.Commit? { Guarantee(s.db, s.seen, s.txns[step.t], {}); }
  }

  /** A committed row keeps its content for as long as it lives, and its id never comes back. */
  lemma {:induction false} RowsKeepContent(states: seq<State>, steps: seq<Step>, j: nat, i: nat, f: FileId)
    requires IsRun(states, steps) && j <= i < |states| && f in states[j].seen
    ensures f in states[i].seen
    ensures f in states[i].db.files ==>
      f in states[j].db.files && SameFile(states[j].db.files[f], states[i].db.files[f])
    decreases i - j
  {
    hide Apply;
    hide Enabled;
    hide Inv;
    if j < i {
      RowsKeepContent(states, steps, j, i - 1, f);
      RunKeepsInv(states, steps, i - 1);
      assert Enabled(states[i - 1], steps[i - 1]) && states[(i - 1) + 1] == Apply(states[i - 1], steps[i - 1]);
      StepRows(states[i - 1], steps[i - 1], f);
    }
  }

  // ---- the lookup of an upload ----

  /** The upload has looked and found `d`. */
  predicate Looked(tx: Txn, d: Option<FileId>) {
    && tx.op.Upload?
    && if d.None? then tx.wrote || tx.phase.Insert?
       else && !tx.wrote
            && (|| ((tx.phase.Locking? || tx.phase.Run?) && tx.phase.goal == Refresh(d.value))
                || (tx.phase.Ready? && FileLock(d.value) in tx.locks))
  }

  lemma LookedOnUpload(s: State, t: TxnId, tx: Txn, ok: bool, d: Option<FileId>, next: Txn)
    requires tx.op.Upload? && UploadPhaseOk(s.db, s.seen, tx) && Looked(next, d)
    requires (tx.phase.Locking? && next == AdvanceLock(s.db, tx)) || (tx.phase.Run? && next == AdvanceRun(s.db, tx, ok))
          || (tx.phase.Insert? && next == AdvanceInsert(s, t, tx))
          || (tx.phase.Put? && next == tx.(phase := next.phase))
    ensures Looked(tx, d)
  {
    hide View;
  }

  lemma LookedOnGo(s: State, t: TxnId, ok: bool, d: Option<FileId>)
    requires Inv(s) && Enabled(s, Go(t, ok)) && s.txns[t].op.Upload? && Looked(Advance(s, t, ok), d)
    ensures Looked(s.txns[t], d)
  {
    hide Common;
    hide FileCommon;
    hide Looked;
    assert TxnInv(s.db, s.seen, s.txns[t]);
    LookedOnUpload(s, t, s.txns[t], ok, d, Advance(s, t, ok));
  }

  lemma SameOperation(s: State, t: TxnId, ok: bool)
    requires t in s.txns
    ensures Advance(s, t, ok).op == s.txns[t].op
  {
  }

  lemma LookedBefore(s: State, step: Step, t: TxnId, d: Option<FileId>)
    requires Inv(s) && Enabled(s, step) && t in Apply(s, step).txns && Looked(Apply(s, step).txns[t], d)
    ensures t in s.txns && s.txns[t].op == Apply(s, step).txns[t].op
    ensures step == Find(t, d) || Looked(s.txns[t], d)
  {
    hide Inv;
    hide Advance;
    if step.Go? && step.t == t {
      SameOperation(s, t, step.clientOk);
      LookedOnGo(s, t, step.clientOk, d);
    }
  }

  /** Every upload past its lookup has made it, at some earlier step. */
  lemma {:induction false} LookupOf(states: seq<State>, steps: seq<Step>, i: nat, t: TxnId, d: Option<FileId>)
    returns (j: nat)
    requires IsRun(states, steps) && i < |states| && t in states[i].txns && Looked(states[i].txns[t], d)
    ensures j < i && steps[j] == Find(t, d) && t in states[j].txns && states[j].txns[t].op == states[i].txns[t].op
  {
    hide Inv;
    hide Apply;
    hide Enabled;
    hide Looked;
    assert i > 0;
    RunKeepsInv(states, steps, i - 1);
    assert Enabled(states[i - 1], steps[i - 1]) && states[(i - 1) + 1] == Apply(states[i - 1], steps[i - 1]);
    LookedBefore(states[i - 1], steps[i - 1], t, d);
    if steps[i - 1] == Find(t, d) {
      j := i - 1;
    } else {
      j := LookupOf(states, steps, i - 1, t, d);
    }
  }

  /** An older duplicate than the one found at step `j`, or any if none was found, is a file
      that was committed after the lookup. */
  lemma OlderIsLater(states: seq<State>, steps: seq<Step>, j: nat, i: nat, t: TxnId, d: Option<FileId>)
    requires IsRun(states, steps) && j < i < |states| && steps[j] == Find(t, d) && t in states[j].txns
    requires states[j].txns[t].op.Upload? && (d.Some? ==> d.value in states[i].db.files)
    ensures
      var e := DuplicateIn(states[i].db, states[j].txns[t].op);
      e == d || (e.Some? && e.value !in states[j].db.files) || (e.None? && d.Some?)
  {
    var op := states[j].txns[t].op;
    var e := DuplicateIn(states[i].db, op);
    assert Enabled(states[j], steps[j]);
    LookupIsOldest(states[i].db, op.row);
    RunKeepsInv(states, steps, j);
    if e.Some? && e != d && e.value in states[j].db.files {
      RowsKeepContent(states, steps, j, i, e.value);
      if d.Some? {
        RowsKeepContent(states, steps, j, i, d.value);
        if LexLess(d.value, e.value) && LexLess(e.value, d.value) { LexTransitive(d.value, e.value, d.value); }
        LexIrreflexive(d.value);
      }
    }
  }

  /** The commit of an upload, with its lookup at step `j`: it adds the new row under a free id and
      a free key, or renews the duplicate `d` it found. It is what the upload would do running
      alone on the committed rows, unless the duplicate it would find there was committed after
      its lookup. */
  lemma UploadCommitIsUpload(states: seq<State>, steps: seq<Step>, i: nat, t: TxnId) returns (j: nat, d: Option<FileId>)
    requires IsRun(states, steps) && i < |steps| && steps[i] == Commit(t)
    requires t in states[i].txns && states[i].txns[t].op.Upload?
    ensures j < i && steps[j] == Find(t, d) && DuplicateIn(states[j].db, states[i].txns[t].op) == d
    ensures
      var db, db', op := states[i].db, states[i + 1].db, states[i].txns[t].op;
      if d.None? then
        && op.id !in db.files && !FileOperations.KeyTaken(db, op.row.key) && op.row.key in states[i].objects
        && db' == db.(files := db.files[op.id := op.row])
      else
        && d.value in db.files && SameContent(db.files[d.value], op.row)
        && db' == FileOperations.Refresh(db, d.value, op.now)
    ensures
      var db, db', op := states[i].db, states[i + 1].db, states[i].txns[t].op;
      || db' == UploadAlone(db, op)
      || (DuplicateIn(db, op).Some? && DuplicateIn(db, op).value !in states[j].db.files)
  {
    hide TxnInv;
    hide Inv;
    hide View;
    hide UploadAlone;
    hide DuplicateIn;
    var s, tx := states[i], states[i].txns[t];
    AtCommit(states, steps, i, t);
    if tx.wrote {
      d := None;
      InsertedView(s.db, s.seen, tx);
      InsertedKey(s, t);
      if DuplicateIn(s.db, tx.op).None? { InsertedAlone(s.db, tx.op); }
    } else {
      var found := RefreshedReady(s.db, s.seen, tx);
      d := Some(found);
      RefreshedView(s.db, tx, found);
      DuplicateThere(s.db, tx.op, found);
    }
    j := LookupOf(states, steps, i, t, d);
    OlderIsLater(states, steps, j, i, t, d);
    FindsDuplicate(states, steps, j, t, d);
  }

  lemma FindsDuplicate(states: seq<State>, steps: seq<Step>, j: nat, t: TxnId, d: Option<FileId>)
    requires IsRun(states, steps) && j < |steps| && steps[j] == Find(t, d)
    requires t in states[j].txns && states[j].txns[t].op.Upload?
    ensures DuplicateIn(states[j].db, states[j].txns[t].op) == d
  {
    assert Enabled(states[j], steps[j]);
    LookupIsOldest(states[j].db, states[j].txns[t].op.row);
    var e := DuplicateIn(states[j].db, states[j].txns[t].op);
    if d.Some? && e.Some? && LexLess(d.value, e.value) && LexLess(e.value, d.value) {
      LexTransitive(d.value, e.value, d.value);
      LexIrreflexive(d.value);
    }
  }

  lemma DuplicateThere(db: Tables, op: Operation, d: FileId)
    requires op.Upload? && d in db.files && SameContent(db.files[d], op.row)
    ensures DuplicateIn(db, op).Some?
  {
    LookupIsOldest(db, op.row);
  }

  // ---- prune ----

  /** In every interleaving prune skips nothing: under its locks every candidate it still has
      to sweep is unused and orphaned before the cutoff, and it never comes to mark one as in
      use. So the count of candidates skipped in use is always zero. */
  lemma PruneSkipsNothing(states: seq<State>, steps: seq<Step>, i: nat, t: TxnId)
    requires IsRun(states, steps) && i < |states| && t in states[i].txns && states[i].txns[t].op.Prune?
    ensures
      var s, tx := states[i], states[i].txns[t];
      && !tx.phase.Locking? && !tx.phase.Run?
      && (tx.phase.Sweep? ==> forall f :: f in tx.phase.rest ==>
            FileOperations.Eligible(s.db, tx.op.namespace, tx.op.cutoff, f) && !HasUsages(View(s.db, tx), f))
  {
    var s, tx := states[i], states[i].txns[t];
    RunKeepsInv(states, steps, i);
    assert TxnInv(s.db, s.seen, tx);
    forall f ensures HasUsages(View(s.db, tx), f) <==> HasUsages(s.db, f) { NoArticleWrite(s.db, tx, f); }
  }

  lemma PrunedView(db: Tables, seen: set<FileId>, tx: Txn)
    requires TxnInv(db, seen, tx) && OrphanMarksExact(db) && tx.op.Prune? && tx.phase.Ready?
    ensures View(db, tx) == db.(files := db.files - tx.erased)
    ensures forall f :: f in tx.erased ==> FileOperations.Eligible(db, tx.op.namespace, tx.op.cutoff, f)
  {
    assert forall f :: f in tx.files <==> f in tx.erased;
    assert ViewFiles(db, tx) == db.files - tx.erased;
  }

  lemma SweptRows(db: Tables, objects: set<ObjectKey>, erased: set<FileId>)
    requires forall f :: f in erased ==> f in db.files && !HasUsages(db, f)
    ensures FileOperations.PruneAll(FileOperations.Store(db, objects), SortIds(erased), {}).db
      == db.(files := db.files - erased)
  {
    hide HasUsages;
    hide SortIds;
    var ids := SortIds(erased);
    SortedDistinct(ids);
    FileHistory.PruneAllEffect(FileOperations.Store(db, objects), ids, {});
    assert FileHistory.Surviving(db.files, ids, {}) == db.files - erased;
  }

  lemma SortedDistinct(ids: seq<FileId>)
    requires Ascending(ids)
    ensures FileHistory.AllDistinct(ids)
  {
    forall i, j | 0 <= i < j < |ids| ensures ids[i] != ids[j] { LexIrreflexive(ids[i]); }
  }

  /** The commit of a prune is the sequential sweep over exactly the files whose object it
      removed, and each of them is eligible in the rows it commits on. */
  lemma PruneCommitIsPruneAll(states: seq<State>, steps: seq<Step>, i: nat, t: TxnId)
    requires IsRun(states, steps) && i < |steps| && steps[i] == Commit(t)
    requires t in states[i].txns && states[i].txns[t].op.Prune?
    ensures
      var s, tx := states[i], states[i].txns[t];
      && (forall f :: f in tx.erased ==> FileOperations.Eligible(s.db, tx.op.namespace, tx.op.cutoff, f))
      && states[i + 1].db == s.db.(files := s.db.files - tx.erased)
      && states[i + 1].db == FileOperations.PruneAll(FileOperations.Store(s.db, s.objects), SortIds(tx.erased), {}).db
  {
    hide TxnInv;
    hide View;
    hide SortIds;
    hide FileOperations.PruneAll;
    var s, tx := states[i], states[i].txns[t];
    AtCommit(states, steps, i, t);
    PrunedView(s.db, s.seen, tx);
    SweptRows(s.db, s.objects, tx.erased);
  }

  /** The same commit as one sequential prune: with a batch large enough for all eligible files
      and a client that fails for the keys of those it spared. */
  lemma ErasedIsPrune(db: Tables, namespace: string, cutoff: Time, erased: set<FileId>)
    returns (limit: nat, failing: set<ObjectKey>)
    requires ObjectsUnique(db) && forall f :: f in erased ==> FileOperations.Eligible(db, namespace, cutoff, f)
    ensures FileOperations.Prune(FileOperations.Store(db, {}), namespace, cutoff, limit, failing).db
      == db.(files := db.files - erased)
  {
    hide HasUsages;
    hide FileOperations.Prune;
    limit := |FileOperations.Backlog(db, namespace, cutoff)|;
    failing := set f | f in db.files && f !in erased :: db.files[f].key;
    FileHistory.PruneEffect(FileOperations.Store(db, {}), namespace, cutoff, limit, failing);
    ListingIsListing(FileOperations.EligibleKeys(db, namespace, cutoff));
    var ids := FileOperations.Candidates(db, namespace, cutoff, limit);
    forall f | f in db.files ensures f in erased <==> f in ids && db.files[f].key !in failing {
      if f in erased { assert f in FileOperations.EligibleKeys(db, namespace, cutoff); }
    }
    assert FileHistory.Surviving(db.files, ids, failing) == db.files - erased;
  }

  // ---- all commits of a run ----

  /** `db'` is what the request leaves on `db` when it is served alone. */
  ghost predicate ServedAlone(db: Tables, op: Operation, db': Tables) {
    match op
    case WriteArticle(a, after, creates, now) =>
      && (creates <==> a !in db.articles) && (after.Some? ==> ArticleRefsOk(db, after.value))
      && db' == FileOperations.SaveArticle(db, a, after, now)
    case DeleteFile(f) => db' == FileOperations.Remove(FileOperations.Store(db, {}), f, true).db
    case Upload(_, _, _) => db' == UploadAlone(db, op)
    case Prune(namespace, cutoff) =>
      exists limit, failing ::
        db' == FileOperations.Prune(FileOperations.Store(db, {}), namespace, cutoff, limit, failing).db
  }

  /** An upload that looked in the tables of `earlier`, which lack the duplicate it would find in
      `db`: it adds its row if it found none there, and renews the one it found otherwise. */
  predicate UploadedLate(earlier: Tables, db: Tables, op: Operation, db': Tables) {
    && op.Upload? && DuplicateIn(db, op).Some? && DuplicateIn(db, op).value !in earlier.files
    && match DuplicateIn(earlier, op)
       case None =>
         && op.id !in db.files && !FileOperations.KeyTaken(db, op.row.key)
         && db' == db.(files := db.files[op.id := op.row])
       case Some(d) =>
         d in db.files && SameContent(db.files[d], op.row) && db' == FileOperations.Refresh(db, d, op.now)
  }

  lemma CommitIsServed(states: seq<State>, steps: seq<Step>, i: nat, t: TxnId) returns (j: nat)
    requires IsRun(states, steps) && i < |steps| && steps[i] == Commit(t) && t in states[i].txns
    ensures j <= i
    ensures
      var db, op, db' := states[i].db, states[i].txns[t].op, states[i + 1].db;
      ServedAlone(db, op, db') || UploadedLate(states[j].db, db, op, db')
  {
    j := i;
    hide View;
    hide TxnInv;
    hide UploadAlone;
    hide DuplicateIn;
    hide FileOperations.SaveArticle;
    hide FileOperations.Prune;
    match states[i].txns[t].op
    case WriteArticle(_, _, _, _) => ArticleCommitIsSaveArticle(states, steps, i, t);
    case DeleteFile(_) => DeleteCommitIsRemove(states, steps, i, t);
    case Upload(_, _, _) =>
      var d;
      j, d := UploadCommitIsUpload(states, steps, i, t);
    case Prune(namespace, cutoff) =>
      AtCommit(states, steps, i, t);
      PruneCommitIsPruneAll(states, steps, i, t);
      var limit, failing := ErasedIsPrune(states[i].db, namespace, cutoff, states[i].txns[t].erased);
  }

  /** The requests whose commits are among the first `n` steps, in the order of their commits. */
  function CommittedRequests(states: seq<State>, steps: seq<Step>, n: nat): seq<Operation>
    requires n <= |steps| < |states|
  {
    if n == 0 then []
    else
      var before, step := CommittedRequests(states, steps, n - 1), steps[n - 1];
      if step.Commit? && step.t in states[n - 1].txns then before + [states[n - 1].txns[step.t].op] else before
  }

  /** `tables` is a history of requests served one after the other on the empty database. */
  ghost predicate IsSequential(tables: seq<Tables>, ops: seq<Operation>) {
    && |tables| == |ops| + 1 && tables[0] == Initial().db
    && forall k :: 0 <= k < |ops| ==> IsNext(tables, ops[k], k)
  }

  /** Request `op` leads from table `k` to the next, alone or by a lookup in an earlier table. */
  ghost predicate IsNext(tables: seq<Tables>, op: Operation, k: nat)
    requires k + 1 < |tables|
  {
    || ServedAlone(tables[k], op, tables[k + 1])
    || exists m :: 0 <= m < k && UploadedLate(tables[m], tables[k], op, tables[k + 1])
  }

  lemma SequentialMore(tables: seq<Tables>, ops: seq<Operation>, op: Operation, db: Tables, m: nat)
    requires IsSequential(tables, ops) && m <= |ops|
    requires ServedAlone(tables[|ops|], op, db) || UploadedLate(tables[m], tables[|ops|], op, db)
    ensures IsSequential(tables + [db], ops + [op])
  {
    hide ServedAlone;
    hide UploadedLate;
    var tables', ops' := tables + [db], ops + [op];
    if !ServedAlone(tables[|ops|], op, db) { LateIsEarlier(tables[m], tables[|ops|], op, db); }
    assert IsNext(tables', op, |ops|) by {
      assert tables'[m] == tables[m] && tables'[|ops|] == tables[|ops|] && tables'[|ops| + 1] == db;
    }
    forall k | 0 <= k < |ops'| ensures IsNext(tables', ops'[k], k) {
      if k < |ops| { NextStays(tables, ops[k], k, db); }
    }
  }

  lemma LateIsEarlier(earlier: Tables, db: Tables, op: Operation, db': Tables)
    requires UploadedLate(earlier, db, op, db')
    ensures earlier != db
  {
    LookupIsOldest(db, op.row);
  }

  lemma NextStays(tables: seq<Tables>, op: Operation, k: nat, db: Tables)
    requires k + 1 < |tables| && IsNext(tables, op, k)
    ensures IsNext(tables + [db], op, k)
  {
    hide ServedAlone;
    hide UploadedLate;
    var tables' := tables + [db];
    assert forall m :: 0 <= m < |tables| ==> tables'[m] == tables[m];
    if !ServedAlone(tables[k], op, tables[k + 1]) {
      var m :| 0 <= m < k && UploadedLate(tables[m], tables[k], op, tables[k + 1]);
      assert UploadedLate(tables'[m], tables'[k], op, tables'[k + 1]);
    }
  }

  /** The table of the history that is committed after the first `j` steps. */
  ghost predicate Tracks(tables: seq<Tables>, states: seq<State>, steps: seq<Step>, j: nat)
    requires j <= |steps| < |states|
  {
    var m := |CommittedRequests(states, steps, j)|;
    m < |tables| && tables[m] == states[j].db
  }

  /** Every interleaving is equivalent to serving the committed requests one at a time, in the
      order of their commits: at every moment the committed tables are those of that sequential
      history, in which only an upload differs from the upload served alone whose duplicate was
      committed after its lookup; it acts on what an earlier table showed it. */
  lemma {:induction false} CommitsAreSequential(states: seq<State>, steps: seq<Step>, n: nat)
    returns (tables: seq<Tables>)
    requires IsRun(states, steps) && n <= |steps|
    ensures IsSequential(tables, CommittedRequests(states, steps, n))
    ensures forall j :: 0 <= j <= n ==> Tracks(tables, states, steps, j)
  {
    hide Apply;
    hide Enabled;
    hide ServedAlone;
    hide UploadedLate;
    hide IsNext;
    if n == 0 {
      tables := [Initial().db];
    } else {
      var before := CommitsAreSequential(states, steps, n - 1);
      var s, step := states[n - 1], steps[n - 1];
      assert Enabled(s, step) && states[(n - 1) + 1] == Apply(s, step);
      TablesAfter(s, step);
      assert Tracks(before, states, steps, n - 1);
      if step.Commit? {
        var i := CommitIsServed(states, steps, n - 1, step.t);
        assert Tracks(before, states, steps, i);
        var ops := CommittedRequests(states, steps, n - 1);
        SequentialMore(before, ops, s.txns[step.t].op, states[n].db, |CommittedRequests(states, steps, i)|);
        tables := before + [states[n].db];
      } else {
        tables := before;
      }
      forall j | 0 <= j <= n ensures Tracks(tables, states, steps, j) {
        if j < n { assert Tracks(before, states, steps, j); }
      }
    }
  }

  lemma TablesAfter(s: State, step: Step)
    requires Enabled(s, step)
    ensures if step.Commit? then step.t in s.txns else Apply(s, step).db == s.db
  {
  }
}
