/** Every sequential history of requests is a run of the machine, one request after the other. */
module FileTransactionHistories {
  import opened Wrappers
  import opened FileDomain
  import opened Ordering
  import opened FileTransactions
  import opened FileTransactionInvariant
  import opened FileTransactionSteps
  import opened FileTransactionSafety
  import opened FileTransactionCommits
  import opened FileTransactionProgress
  import opened FileTransactionOutcomes
  import FileOperations
  import FileHistory

  // ---- prune on its own ----

  /** Of the candidates `ids`, those whose object can be deleted. */
  function Swept(db: Tables, ids: seq<FileId>, failing: set<ObjectKey>): set<FileId> {
    set f | f in ids && f in db.files && db.files[f].key !in failing
  }

  function KeysOf(db: Tables, ids: set<FileId>): set<ObjectKey> {
    set f | f in ids && f in db.files :: db.files[f].key
  }

  /** Prune alone since the quiet state `base`, with the candidates `done` behind it. */
  predicate Pruning(base: State, s: State, t: TxnId, done: seq<FileId>, failing: set<ObjectKey>) {
    && s.db == base.db && s.seen == base.seen && s.txns.Keys == {t}
    && s.txns[t].op.Prune? && s.txns[t].erased == Swept(base.db, done, failing)
    && s.objects == base.objects - KeysOf(base.db, s.txns[t].erased)
  }

  /** The answer of the object store for the next candidate. */
  function Answer(s: State, tx: Txn, failing: set<ObjectKey>): bool {
    tx.phase.Sweep? && tx.phase.rest != [] && tx.phase.rest[0] in s.db.files
    && s.db.files[tx.phase.rest[0]].key !in failing
  }

  /** One statement of the loop. */
  function NextSweep(tx: Txn, ok: bool): Txn {
    match tx.phase
    case Sweep(rest) =>
      if rest == [] then tx.(phase := Ready)
      else if ok then tx.(phase := Erase(rest[0], rest[1..]), erased := tx.erased + {rest[0]})
      else tx.(phase := Sweep(rest[1..]))
    case Erase(f, rest) => tx.(phase := Sweep(rest), files := tx.files[f := None])
    case _ => tx
  }

  lemma SweepIs(s: State, t: TxnId, ok: bool)
    requires Inv(s) && t in s.txns && s.txns[t].op.Prune? && (s.txns[t].phase.Sweep? || s.txns[t].phase.Erase?)
    ensures Advance(s, t, ok) == NextSweep(s.txns[t], ok)
    ensures s.txns[t].phase.Sweep? ==>
      forall f :: f in s.txns[t].phase.rest ==> f in s.db.files && f !in s.txns[t].erased
  {
    hide HasUsages;
    hide AdvanceSweep;
    hide AdvanceErase;
    var tx := s.txns[t];
    assert TxnInv(s.db, s.seen, tx);
    if tx.phase.Sweep? { SweepNeverMarks(s.db, tx, ok); } else { EraseSucceeds(s.db, s.seen, tx); }
  }

  lemma SweptMore(db: Tables, done: seq<FileId>, f: FileId, failing: set<ObjectKey>)
    ensures Swept(db, done + [f], failing)
         == Swept(db, done, failing) + (if f in db.files && db.files[f].key !in failing then {f} else {})
  {
    assert forall g :: g in done + [f] <==> g in done || g == f;
  }

  lemma SweepStep(base: State, s: State, t: TxnId, done: seq<FileId>, failing: set<ObjectKey>)
    requires Inv(s) && Pruning(base, s, t, done, failing) && (s.txns[t].phase.Sweep? || s.txns[t].phase.Erase?)
    ensures
      var tx, ok := s.txns[t], Answer(s, s.txns[t], failing);
      var done' := if tx.phase.Sweep? && tx.phase.rest != [] then done + [tx.phase.rest[0]] else done;
      && Enabled(s, Go(t, ok))
      && Pruning(base, Apply(s, Go(t, ok)), t, done', failing)
      && Apply(s, Go(t, ok)).txns[t] == NextSweep(tx, ok)
  {
    hide Inv;
    hide Advance;
    hide Swept;
    var tx, ok := s.txns[t], Answer(s, s.txns[t], failing);
    SweepIs(s, t, ok);
    if tx.phase.Sweep? && tx.phase.rest != [] {
      assert tx.phase.rest[0] in tx.phase.rest;
      SweptMore(base.db, done, tx.phase.rest[0], failing);
    }
  }

  /** The candidates that are still to be swept. */
  function Rest(tx: Txn): seq<FileId> {
    if tx.phase.Sweep? || tx.phase.Erase? then tx.phase.rest else []
  }

  predicate InLoop(tx: Txn) {
    tx.phase.Sweep? || tx.phase.Erase? || tx.phase.Ready?
  }

  /** What prune leaves when it ends with the candidates `ids` behind it. */
  predicate PrunedAs(base: State, s: State, ids: seq<FileId>, failing: set<ObjectKey>) {
    && s.db == base.db.(files := base.db.files - Swept(base.db, ids, failing))
    && s.objects == base.objects - KeysOf(base.db, Swept(base.db, ids, failing))
    && s.seen == base.seen + s.db.files.Keys
  }

  lemma PruneEndsAlone(base: State, s: State, t: TxnId, ids: seq<FileId>, failing: set<ObjectKey>)
    requires Inv(s) && Pruning(base, s, t, ids, failing) && s.txns[t].phase.Ready?
    ensures Enabled(s, Commit(t)) && Apply(s, Commit(t)).txns == map[]
    ensures PrunedAs(base, Apply(s, Commit(t)), ids, failing)
  {
    hide TxnInv;
    hide View;
    hide Swept;
    PrunedView(s.db, s.seen, s.txns[t]);
    assert (s.txns - {t}).Keys == {};
  }

  lemma {:induction false} SweepAlone(states: seq<State>, steps: seq<Step>, base: State, t: TxnId,
                                      done: seq<FileId>, failing: set<ObjectKey>)
    returns (states': seq<State>, steps': seq<Step>)
    requires IsRun(states, steps) && Pruning(base, states[|steps|], t, done, failing) && InLoop(states[|steps|].txns[t])
    ensures Finishes(states, steps, t, states', steps')
    ensures PrunedAs(base, states'[|steps'|], done + Rest(states[|steps|].txns[t]), failing)
    decreases Work(states[|steps|].db, states[|steps|].txns[t])
  {
    hide Inv;
    hide Apply;
    hide Enabled;
    hide Work;
    hide Swept;
    var s := states[|steps|];
    RunKeepsInv(states, steps, |steps|);
    if s.txns[t].phase.Ready? {
      PruneEndsAlone(base, s, t, done, failing);
      RunOn(states, steps, Commit(t));
      states', steps' := states + [Apply(s, Commit(t))], steps + [Commit(t)];
      assert done + [] == done;
    } else {
      var tx, ok := s.txns[t], Answer(s, s.txns[t], failing);
      var done' := if tx.phase.Sweep? && tx.phase.rest != [] then done + [tx.phase.rest[0]] else done;
      SweepStep(base, s, t, done, failing);
      SweepIs(s, t, ok);
      FileGoWorks(s, t, ok);
      RunOn(states, steps, Go(t, ok));
      states', steps' := SweepAlone(states + [Apply(s, Go(t, ok))], steps + [Go(t, ok)], base, t, done', failing);
      assert done' + Rest(NextSweep(tx, ok)) == done + Rest(tx);
    }
  }

  /** Prune alone, with `taken` of its candidates locked. */
  predicate Collecting(base: State, s: State, t: TxnId, taken: seq<FileId>) {
    && s.db == base.db && s.seen == base.seen && s.objects == base.objects && s.txns.Keys == {t}
    && s.txns[t].op.Prune? && s.txns[t].phase == Collect(taken) && s.txns[t].erased == {}
    && s.txns[t].locks == set f | f in taken :: FileLock(f)
  }

  lemma TakeNext(base: State, s: State, t: TxnId, ids: seq<FileId>, k: nat)
    requires k < |ids| && Collecting(base, s, t, ids[..k]) && Distinct(ids) && Candidate(base.db, s.txns[t].op, ids[k])
    ensures Enabled(s, Take(t, ids[k])) && Collecting(base, Apply(s, Take(t, ids[k])), t, ids[..k + 1])
    ensures Apply(s, Take(t, ids[k])).txns[t].op == s.txns[t].op
  {
    assert ids[..k + 1] == ids[..k] + [ids[k]];
    assert ids[k] !in ids[..k];
  }

  lemma StartSweep(base: State, s: State, t: TxnId, ids: seq<FileId>, failing: set<ObjectKey>)
    requires Collecting(base, s, t, ids)
    ensures Enabled(s, Go(t, true)) && Pruning(base, Apply(s, Go(t, true)), t, [], failing)
    ensures Apply(s, Go(t, true)).txns[t].phase == Sweep(ids)
  {
  }

  lemma {:induction false} CollectAlone(states: seq<State>, steps: seq<Step>, base: State, t: TxnId,
                                        ids: seq<FileId>, k: nat, failing: set<ObjectKey>)
    returns (states': seq<State>, steps': seq<Step>)
    requires IsRun(states, steps) && k <= |ids| && Collecting(base, states[|steps|], t, ids[..k]) && Distinct(ids)
    requires forall f :: f in ids ==> Candidate(base.db, states[|steps|].txns[t].op, f)
    ensures Finishes(states, steps, t, states', steps') && PrunedAs(base, states'[|steps'|], ids, failing)
    decreases |ids| - k
  {
    hide Apply;
    hide Enabled;
    hide Swept;
    hide Candidate;
    hide Distinct;
    var s := states[|steps|];
    if k == |ids| {
      assert ids[..k] == ids && [] + ids == ids;
      StartSweep(base, s, t, ids, failing);
      RunOn(states, steps, Go(t, true));
      states', steps' := SweepAlone(states + [Apply(s, Go(t, true))], steps + [Go(t, true)], base, t, [], failing);
    } else {
      var step := Take(t, ids[k]);
      TakeNext(base, s, t, ids, k);
      RunOn(states, steps, step);
      states', steps' := CollectAlone(states + [Apply(s, step)], steps + [step], base, t, ids, k + 1, failing);
    }
  }

  lemma {:induction false} PruneAlone(states: seq<State>, steps: seq<Step>, t: TxnId, namespace: string, cutoff: Time,
                                      limit: nat, failing: set<ObjectKey>)
    returns (states': seq<State>, steps': seq<Step>)
    requires IsRun(states, steps) && states[|steps|].txns.Keys == {t}
    requires states[|steps|].txns[t] == StartTxn(Prune(namespace, cutoff))
    ensures Finishes(states, steps, t, states', steps')
    ensures
      var s, s' := states[|steps|], states'[|steps'|];
      && StoreOf(s') == FileOperations.Prune(StoreOf(s), namespace, cutoff, limit, failing)
      && s'.seen == s.seen + s'.db.files.Keys
  {
    hide FileOperations.Prune;
    hide FileOperations.Candidates;
    hide FileOperations.Eligible;
    var s := states[|steps|];
    var ids := FileOperations.Candidates(s.db, namespace, cutoff, limit);
    FileHistory.PruneEffect(StoreOf(s), namespace, cutoff, limit, failing);
    FileHistory.CandidatesDistinct(s.db, namespace, cutoff, limit);
    CandidatesAre(s.db, namespace, cutoff, limit);
    var step, next := Go(t, true), StartTxn(Prune(namespace, cutoff)).(phase := Collect([]));
    RunOn(states, steps, step);
    assert Apply(s, step).txns == s.txns[t := next];
    assert ids[..0] == [];
    states', steps' := CollectAlone(states + [Apply(s, step)], steps + [step], s, t, ids, 0, failing);
    assert FileHistory.Surviving(s.db.files, ids, failing) == s.db.files - Swept(s.db, ids, failing);
    assert FileHistory.KeysGone(s.db.files, ids, failing) == KeysOf(s.db, Swept(s.db, ids, failing));
  }

  lemma CandidatesAre(db: Tables, namespace: string, cutoff: Time, limit: nat)
    ensures forall f :: f in FileOperations.Candidates(db, namespace, cutoff, limit) ==>
      Candidate(db, Prune(namespace, cutoff), f)
  {
    hide FileOperations.Candidates;
    FileOperations.CandidatesEligible(db, namespace, cutoff, limit);
  }

  // ---- every request ----

  function OpOf(r: FileOperations.Request, now: Time): Operation {
    match r
    case UploadFile(id, purpose, key, sha, _) => Upload(id, FileRow(purpose, key, sha, now, Some(now)), now)
    case RemoveFile(f, _) => DeleteFile(f)
    case CreateArticle(a, p) => WriteArticle(a, Some(FileOperations.ToArticle(p)), true, now)
    case UpdateArticle(a, p) => WriteArticle(a, Some(FileOperations.ToArticle(p)), false, now)
    case DeleteArticle(a) => WriteArticle(a, None, false, now)
    case PruneFiles(namespace, cutoff, _, _) => Prune(namespace, cutoff)
  }

  /** Requests the machine has no step for: a new article under an id that is taken, and the
      deletion of a file that never was. Both change nothing. */
  predicate Starts(s: State, r: FileOperations.Request) {
    (r.CreateArticle? ==> r.article !in s.db.articles) && (r.RemoveFile? ==> r.file in s.seen)
  }

  function ClientOk(r: FileOperations.Request): bool {
    if r.UploadFile? || r.RemoveFile? then r.clientOk else true
  }

  lemma HandleIsOutcome(st: FileOperations.Store, r: FileOperations.Request, now: Time)
    requires !r.PruneFiles?
    ensures FileOperations.Handle(st, r, now) == Outcome(st, OpOf(r, now), ClientOk(r))
  {
    hide FileOperations.SaveArticle;
    hide FileOperations.Remove;
    hide FileOperations.Upload;
    hide FileOperations.ToArticle;
    hide ArticleRefsOk;
  }

  lemma StartsAlone(s: State, t: TxnId, op: Operation, ok: bool)
    requires s.txns == map[] && !op.Prune? && Enabled(s, Start(t, op)) && (op.Upload? ==> FreshId(s, op))
    ensures Alone(s, Apply(s, Start(t, op)), t, ok) && Apply(s, Start(t, op)).txns[t].op == op
  {
  }

  /** From every quiet reachable state every request can run on its own, by its own steps and
      without an abort of healthy work, and leaves rows and objects exactly as the sequential
      request does; an article that may be saved is saved, a file that may go goes, prune takes
      exactly its batch. */
  lemma RequestServed(states: seq<State>, steps: seq<Step>, t: TxnId, r: FileOperations.Request, now: Time)
    returns (states': seq<State>, steps': seq<Step>)
    requires IsRun(states, steps) && states[|steps|].txns == map[] && Starts(states[|steps|], r)
    requires r.UploadFile? ==> FreshId(states[|steps|], OpOf(r, now))
    ensures Enabled(states[|steps|], Start(t, OpOf(r, now)))
    ensures
      var start := Start(t, OpOf(r, now));
      Finishes(states + [Apply(states[|steps|], start)], steps + [start], t, states', steps')
    ensures
      var s, s' := states[|steps|], states'[|steps'|];
      StoreOf(s') == FileOperations.Handle(StoreOf(s), r, now) && s'.seen == s.seen + s'.db.files.Keys
  {
    hide FileOperations.Handle;
    hide Outcome;
    hide Alone;
    hide FreshId;
    hide Finishes;
    hide Inv;
    var s, op := states[|steps|], OpOf(r, now);
    var step := Start(t, op);
    RunOn(states, steps, step);
    RunKeepsInv(states, steps, |steps|);
    var begun, first := states + [Apply(s, step)], steps + [step];
    if r.PruneFiles? {
      assert Apply(s, step).txns == map[t := StartTxn(op)];
      states', steps' := PruneAlone(begun, first, t, r.namespace, r.cutoff, r.limit, r.failing);
      PruneIsHandled(StoreOf(s), r, now);
    } else {
      StartsAlone(s, t, op, ClientOk(r));
      states', steps' := FinishAlone(begun, first, s, t, ClientOk(r));
      HandleIsOutcome(StoreOf(s), r, now);
    }
  }

  lemma IdleRequest(s: State, r: FileOperations.Request, now: Time)
    requires Inv(s) && !Starts(s, r)
    ensures FileOperations.Handle(StoreOf(s), r, now) == StoreOf(s)
  {
  }

  // ---- every history ----

  predicate FreshFor(r: FileOperations.Request, earlier: FileOperations.Store, st: FileOperations.Store) {
    r.UploadFile? && r.id in earlier.db.files ==> r.id in st.db.files
  }

  /** No upload is given the id of a file that was there before and is gone. */
  ghost predicate FreshUploads(h: FileHistory.History) {
    forall i, j :: 0 <= j <= i < |h.requests| && i < |h.states| ==> FreshFor(h.requests[i], h.states[j], h.states[i])
  }

  /** The files of the first states of a history. */
  function Appeared(h: FileHistory.History, n: nat): set<FileId>
    requires n <= |h.states|
  {
    set j, f | 0 <= j < n && f in h.states[j].db.files :: f
  }

  lemma AppearedMore(h: FileHistory.History, n: nat)
    requires n < |h.states|
    ensures Appeared(h, n + 1) == Appeared(h, n) + h.states[n].db.files.Keys
  {
  }

  lemma StillFresh(h: FileHistory.History, n: nat, s: State)
    requires FileHistory.IsHistory(h) && FreshUploads(h) && n < |h.requests| && h.requests[n].UploadFile?
    requires StoreOf(s) == h.states[n] && s.seen == Appeared(h, n + 1)
    ensures FreshId(s, OpOf(h.requests[n], h.times[n]))
  {
    hide DuplicateIn;
    var id := h.requests[n].id;
    if id in s.seen {
      var j :| 0 <= j < n + 1 && id in h.states[j].db.files;
      assert FreshFor(h.requests[n], h.states[j], h.states[n]);
    }
  }

  /** The machine can do whatever the sequential requests do: every sequential history whose
      uploads get ids of their own is a run of it, one request after the other. */
  lemma {:induction false} HistoryIsRun(h: FileHistory.History, n: nat)
    returns (states: seq<State>, steps: seq<Step>)
    requires FileHistory.IsHistory(h) && FreshUploads(h) && n < |h.states|
    ensures IsRun(states, steps) && states[|steps|].txns == map[]
    ensures StoreOf(states[|steps|]) == h.states[n] && states[|steps|].seen == Appeared(h, n + 1)
  {
    hide FileOperations.Handle;
    hide FreshId;
    hide Finishes;
    hide FreshUploads;
    hide Starts;
    hide Inv;
    hide Appeared;
    AppearedMore(h, n);
    if n == 0 {
      states, steps := [Initial()], [];
      NothingAppeared(h);
    } else {
      states, steps := HistoryIsRun(h, n - 1);
      var s, r, now := states[|steps|], h.requests[n - 1], h.times[n - 1];
      assert h.states[(n - 1) + 1] == FileOperations.Handle(h.states[n - 1], r, now);
      RunKeepsInv(states, steps, |steps|);
      if Starts(s, r) {
        if r.UploadFile? { StillFresh(h, n - 1, s); }
        states, steps := Served(states, steps, r, now);
      } else {
        IdleRequest(s, r, now);
        AllSeen(s);
      }
    }
  }

  lemma AllSeen(s: State)
    requires Inv(s)
    ensures s.db.files.Keys <= s.seen
  {
  }

  lemma NothingAppeared(h: FileHistory.History)
    requires FileHistory.IsHistory(h)
    ensures Appeared(h, 0) == {} && h.states[0].db.files.Keys == {}
  {
  }

  lemma Served(states: seq<State>, steps: seq<Step>, r: FileOperations.Request, now: Time)
    returns (states': seq<State>, steps': seq<Step>)
    requires IsRun(states, steps) && states[|steps|].txns == map[] && Starts(states[|steps|], r)
    requires r.UploadFile? ==> FreshId(states[|steps|], OpOf(r, now))
    ensures IsRun(states', steps') && states'[|steps'|].txns == map[]
    ensures
      var s, s' := states[|steps|], states'[|steps'|];
      StoreOf(s') == FileOperations.Handle(StoreOf(s), r, now) && s'.seen == s.seen + s'.db.files.Keys
  {
    hide FileOperations.Handle;
    hide FreshId;
    hide Starts;
    states', steps' := RequestServed(states, steps, 0, r, now);
  }

  lemma PruneIsHandled(st: FileOperations.Store, r: FileOperations.Request, now: Time)
    requires r.PruneFiles?
    ensures FileOperations.Handle(st, r, now) == FileOperations.Prune(st, r.namespace, r.cutoff, r.limit, r.failing)
  {
  }
}
