/** Every request finishes: from every reachable state the running requests can be led to their
    end, and no schedule of them goes on for ever. */
module FileTransactionProgress {
  import opened Wrappers
  import opened FileDomain
  import opened Ordering
  import opened FileTransactions
  import opened FileTransactionInvariant
  import opened FileTransactionSteps
  import opened FileTransactionSafety

  // ---- the statements a transaction still has before it, while nothing is committed ----

  /** From the statement after a `lock_files` on. */
  function GoalWork(db: Tables, tx: Txn, goal: Goal): nat {
    match goal
    case Orphan => 1
    case Attach => |SortIds(Detached(tx))| + 3
    case Sync => |SortIds(Detached(tx))| + |SortIds(After(tx))| + 5
    case Write => |SortIds(Detached(tx))| + |SortIds(After(tx))| + |SortIds(Transitioned(tx))| + 7
    case Inspect => 5
    case Refresh(d) => if d in db.files then 2 else 8
    case Mark(_, rest) => 2 * |rest| + 2
  }

  function CheckWork(db: Tables, tx: Txn, refs: seq<Ref>): nat {
    GoalWork(db, tx, Write) + |SortIds(Transitioned(tx))| + 2 + |refs|
  }

  function BeginWork(db: Tables, tx: Txn): nat {
    match tx.op
    case WriteArticle(_, after, _, _) => CheckWork(db, AdvanceBegin(db, tx), RefsOf(after)) + 1
    case DeleteFile(_) => 8
    case Upload(_, _, _) => 6
    case Prune(_, _) => 3
  }

  function Work(db: Tables, tx: Txn): nat {
    match tx.phase
    case Begin => BeginWork(db, tx)
    case Check(refs) => CheckWork(db, tx, refs)
    case Locking(todo, goal) => GoalWork(db, tx, goal) + |todo| + 1
    case Run(goal) => GoalWork(db, tx, goal)
    case Collect(taken) => 2 * |taken| + 2
    case Sweep(rest) => 2 * |rest| + 1
    case Erase(_, rest) => 2 * |rest| + 2
    case Insert => 3
    case Put => 2
    case Ready => 0
    case Failed => 0
  }

  /** The sets of an article request depend on its form and on the row it read. */
  lemma SameSets(tx: Txn, next: Txn)
    requires next.op == tx.op && next.before == tx.before
    ensures Transitioned(next) == Transitioned(tx) && After(next) == After(tx) && Detached(next) == Detached(tx)
  {
  }

  lemma ArticleWorks(db: Tables, seen: set<FileId>, tx: Txn, ok: bool, next: Txn)
    requires tx.op.WriteArticle? && ArticleBodyOk(db, seen, tx)
    requires tx.phase.Check? || tx.phase.Locking? || tx.phase.Run?
    requires next == if tx.phase.Check? then AdvanceCheck(db, tx)
                     else if tx.phase.Locking? then AdvanceLock(db, tx) else AdvanceRun(db, tx, ok)
    ensures Work(db, next) < Work(db, tx)
  {
    hide SortIds;
    hide RefsOf;
    hide Transitioned;
    hide Detached;
    hide After;
    if tx.phase.Run? { GoalOfArticle(db, seen, tx); }
    SameSets(tx, next);
  }

  lemma BeginWorks(db: Tables, tx: Txn)
    requires tx.phase.Begin? && !tx.op.Upload?
    ensures Work(db, AdvanceBegin(db, tx)) < Work(db, tx)
  {
    hide SortIds;
    hide RefsOf;
    hide Transitioned;
    hide Detached;
    hide After;
  }

  lemma ArticleGoWorks(s: State, t: TxnId, ok: bool)
    requires Inv(s) && Enabled(s, Go(t, ok)) && s.txns[t].op.WriteArticle?
    ensures Work(s.db, Advance(s, t, ok)) < Work(s.db, s.txns[t])
  {
    hide Work;
    hide ArticleBodyOk;
    var tx := s.txns[t];
    assert TxnInv(s.db, s.seen, tx);
    if tx.phase.Begin? {
      BeginWorks(s.db, tx);
    } else {
      ArticleRunning(s.db, s.seen, tx);
      ArticleWorks(s.db, s.seen, tx, ok, Advance(s, t, ok));
    }
  }

  lemma ArticleRunning(db: Tables, seen: set<FileId>, tx: Txn)
    requires tx.op.WriteArticle? && ArticleBodyOk(db, seen, tx) && !tx.phase.Ready?
    ensures tx.phase.Check? || tx.phase.Locking? || tx.phase.Run?
  {
  }

  lemma DeleteWorks(db: Tables, seen: set<FileId>, tx: Txn, ok: bool, next: Txn)
    requires tx.op.DeleteFile? && DeletePhaseOk(db, seen, tx, tx.op.file)
    requires (tx.phase.Locking? && next == AdvanceLock(db, tx)) || (tx.phase.Run? && next == AdvanceRun(db, tx, ok))
          || (tx.phase.Erase? && next == AdvanceErase(db, tx)) || (tx.phase.Sweep? && next == AdvanceSweep(db, tx, ok))
    ensures Work(db, next) < Work(db, tx)
  {
    hide View;
    hide HasUsages;
  }

  lemma PruneWorks(db: Tables, tx: Txn, ok: bool, next: Txn)
    requires tx.op.Prune? && PrunePhaseOk(db, tx) && OrphanMarksExact(db)
    requires (tx.phase.Collect? && next == tx.(phase := Sweep(tx.phase.taken)))
          || (tx.phase.Erase? && next == AdvanceErase(db, tx)) || (tx.phase.Sweep? && next == AdvanceSweep(db, tx, ok))
    ensures Work(db, next) < Work(db, tx)
  {
    hide View;
    hide HasUsages;
    hide OrphanMarksExact;
    if tx.phase.Sweep? { SweepNeverMarks(db, tx, ok); }
  }

  lemma UploadWorks(db: Tables, seen: set<FileId>, tx: Txn, ok: bool, next: Txn)
    requires tx.op.Upload? && UploadPhaseOk(db, seen, tx)
    requires (tx.phase.Locking? && next == AdvanceLock(db, tx)) || (tx.phase.Run? && next == AdvanceRun(db, tx, ok))
          || (tx.phase.Insert? && (next.phase.Put? || next.phase.Failed?))
          || (tx.phase.Put? && (next.phase.Ready? || next.phase.Failed?))
    ensures Work(db, next) < Work(db, tx)
  {
    hide View;
  }

  lemma FileGoWorks(s: State, t: TxnId, ok: bool)
    requires Inv(s) && Enabled(s, Go(t, ok)) && !s.txns[t].op.WriteArticle?
    ensures Work(s.db, Advance(s, t, ok)) < Work(s.db, s.txns[t])
  {
    hide Work;
    hide Common;
    hide FileCommon;
    var db, tx, next := s.db, s.txns[t], Advance(s, t, ok);
    assert TxnInv(db, s.seen, tx);
    if tx.phase.Begin? {
      BeginWorks(db, tx);
    } else {
      match tx.op
      case DeleteFile(_) => DeleteWorks(db, s.seen, tx, ok, next);
      case Prune(_, _) => PruneWorks(db, tx, ok, next);
      case Upload(_, _, _) => UploadWorks(db, s.seen, tx, ok, next);
    }
  }

  // ---- all of them together ----

  function TotalWork(db: Tables, txns: map<TxnId, Txn>, k: nat): nat {
    if k == 0 then 0 else TotalWork(db, txns, k - 1) + if k - 1 in txns then Work(db, txns[k - 1]) else 0
  }

  lemma {:induction false} TotalSame(db: Tables, a: map<TxnId, Txn>, b: map<TxnId, Txn>, k: nat)
    requires forall t :: 0 <= t < k ==> (t in a <==> t in b) && (t in a ==> a[t] == b[t])
    ensures TotalWork(db, a, k) == TotalWork(db, b, k)
  {
    if k > 0 { TotalSame(db, a, b, k - 1); }
  }

  lemma {:induction false} TotalDrops(db: Tables, txns: map<TxnId, Txn>, t: TxnId, next: Txn, k: nat)
    requires t in txns && t < k && Work(db, next) < Work(db, txns[t])
    ensures TotalWork(db, txns[t := next], k) < TotalWork(db, txns, k)
  {
    hide Work;
    if t == k - 1 {
      TotalSame(db, txns, txns[t := next], k - 1);
    } else {
      TotalDrops(db, txns, t, next, k - 1);
    }
  }

  /** The committed files that no running request has locked. */
  function Unlocked(db: Tables, txns: map<TxnId, Txn>): set<FileId> {
    set f | f in db.files && !(exists t :: t in txns && FileLock(f) in txns[t].locks)
  }

  /** How far a state is from its end: requests, then unlocked files, then statements. */
  predicate Nearer(s: State, s': State, k: nat) {
    || |s'.txns| < |s.txns|
    || (|s'.txns| == |s.txns| && |Unlocked(s'.db, s'.txns)| < |Unlocked(s.db, s.txns)|)
    || (&& |s'.txns| == |s.txns| && |Unlocked(s'.db, s'.txns)| == |Unlocked(s.db, s.txns)|
        && TotalWork(s'.db, s'.txns, k) < TotalWork(s.db, s.txns, k))
  }

  lemma FewerElements(a: set<FileId>, b: set<FileId>)
    requires a <= b
    ensures |a| <= |b| && (a != b ==> |a| < |b|)
  {
    assert b == a + (b - a);
  }

  lemma MoreLocks(db: Tables, txns: map<TxnId, Txn>, t: TxnId, next: Txn)
    requires t in txns && txns[t].locks <= next.locks
    ensures Unlocked(db, txns[t := next]) <= Unlocked(db, txns)
    ensures |Unlocked(db, txns[t := next])| <= |Unlocked(db, txns)|
  {
    forall f | f in Unlocked(db, txns[t := next]) ensures f in Unlocked(db, txns) {
      forall u | u in txns ensures FileLock(f) !in txns[u].locks {
        assert u in txns[t := next];
      }
    }
    FewerElements(Unlocked(db, txns[t := next]), Unlocked(db, txns));
  }

  lemma TakeLocksOne(s: State, t: TxnId, f: FileId)
    requires Enabled(s, Take(t, f))
    ensures |Unlocked(s.db, Apply(s, Take(t, f)).txns)| < |Unlocked(s.db, s.txns)|
  {
    var next := Apply(s, Take(t, f)).txns[t];
    MoreLocks(s.db, s.txns, t, next);
    assert f in Unlocked(s.db, s.txns);
    assert FileLock(f) in s.txns[t := next][t].locks;
    assert f !in Unlocked(s.db, s.txns[t := next]);
    FewerElements(Unlocked(s.db, s.txns[t := next]), Unlocked(s.db, s.txns));
  }

  lemma LocksStay(s: State, t: TxnId, ok: bool)
    requires t in s.txns
    ensures s.txns[t].locks <= Advance(s, t, ok).locks
  {
  }

  /** Every step other than a start brings the running requests nearer to their end: it ends
      one, locks another file, or leaves fewer statements to run on the same rows. */
  lemma EveryStepBringsNearer(s: State, step: Step, k: nat)
    requires Inv(s) && Enabled(s, step) && !step.Start? && step.t < k
    ensures Apply(s, step).txns.Keys <= s.txns.Keys && Nearer(s, Apply(s, step), k)
  {
    hide Inv;
    hide Work;
    hide Unlocked;
    hide Advance;
    var t, s' := step.t, Apply(s, step);
    match step
    case Go(_, ok) =>
      if s.txns[t].op.WriteArticle? { ArticleGoWorks(s, t, ok); } else { FileGoWorks(s, t, ok); }
      LocksStay(s, t, ok);
      MoreLocks(s.db, s.txns, t, s'.txns[t]);
      assert s'.txns.Keys == s.txns.Keys;
      TotalDrops(s.db, s.txns, t, s'.txns[t], k);
    case Find(_, d) =>
      FindWorks(s, t, d);
      MoreLocks(s.db, s.txns, t, s'.txns[t]);
      assert s'.txns.Keys == s.txns.Keys;
      TotalDrops(s.db, s.txns, t, s'.txns[t], k);
    case Take(_, f) =>
      TakeLocksOne(s, t, f);
      assert s'.txns.Keys == s.txns.Keys;
    case Commit(_) => assert s'.txns.Keys == s.txns.Keys - {t};
    case Abort(_) => assert s'.txns.Keys == s.txns.Keys - {t};
  }

  lemma FindWorks(s: State, t: TxnId, d: Option<FileId>)
    requires Enabled(s, Find(t, d))
    ensures Work(s.db, Apply(s, Find(t, d)).txns[t]) < Work(s.db, s.txns[t])
  {
  }

  /** `states'` and `steps'` continue a run without starting another request, and abort only
      requests that have failed. */
  ghost predicate Continues(states: seq<State>, steps: seq<Step>, states': seq<State>, steps': seq<Step>) {
    && IsRun(states', steps') && states <= states' && steps <= steps'
    && forall i :: |steps| <= i < |steps'| ==> CarriesOn(states'[i], steps'[i])
  }

  lemma RunOn(states: seq<State>, steps: seq<Step>, step: Step)
    requires IsRun(states, steps) && Enabled(states[|steps|], step) && NamesCommitted(states[|steps|], step)
    ensures IsRun(states + [Apply(states[|steps|], step)], steps + [step])
  {
    hide Apply;
    hide Enabled;
    var states', steps' := states + [Apply(states[|steps|], step)], steps + [step];
    forall i | 0 <= i < |steps'|
      ensures Enabled(states'[i], steps'[i]) && states'[i + 1] == Apply(states'[i], steps'[i])
      ensures NamesCommitted(states'[i], steps'[i])
    {
      if i < |steps| { assert states[i + 1] == Apply(states[i], steps[i]); }
    }
  }

  lemma {:induction false} Drain(states: seq<State>, steps: seq<Step>, k: nat)
    returns (states': seq<State>, steps': seq<Step>)
    requires IsRun(states, steps) && forall t :: t in states[|steps|].txns ==> t < k
    ensures Continues(states, steps, states', steps') && states'[|steps'|].txns == map[]
    decreases |states[|steps|].txns|, |Unlocked(states[|steps|].db, states[|steps|].txns)|,
              TotalWork(states[|steps|].db, states[|steps|].txns, k)
  {
    hide Inv;
    hide Apply;
    hide Enabled;
    hide TotalWork;
    hide Unlocked;
    hide Blocked;
    hide CarriesOn;
    var s := states[|steps|];
    if s.txns == map[] {
      states', steps' := states, steps;
    } else {
      RunKeepsInv(states, steps, |steps|);
      var t := UnblockedTxn(s);
      var step := MoveOf(s, t);
      NoStart(s, step);
      EveryStepBringsNearer(s, step, k);
      RunOn(states, steps, step);
      states', steps' := Drain(states + [Apply(s, step)], steps + [step], k);
    }
  }

  lemma NoStart(s: State, step: Step)
    requires CarriesOn(s, step)
    ensures !step.Start?
  {
  }

  lemma {:induction false} KeyBound(keys: set<TxnId>) returns (k: nat)
    ensures forall t :: t in keys ==> t < k
  {
    if keys == {} {
      k := 0;
    } else {
      var t :| t in keys;
      k := KeyBound(keys - {t});
      assert forall u :: u in keys ==> u == t || u in keys - {t};
      if k <= t { k := t + 1; }
    }
  }

  /** From every reachable state some continuation without new requests ends all running ones,
      each by its commit or, once it has failed, by its rollback. */
  lemma EveryRequestCanFinish(states: seq<State>, steps: seq<Step>) returns (states': seq<State>, steps': seq<Step>)
    requires IsRun(states, steps)
    ensures Continues(states, steps, states', steps') && states'[|steps'|].txns == map[]
  {
    var k := KeyBound(states[|steps|].txns.Keys);
    states', steps' := Drain(states, steps, k);
  }

  // ---- no schedule goes on for ever ----

  /** The run continued by steps `from`, `from + 1`, ... of a schedule, `n` of them. */
  ghost predicate Obeys(states: seq<State>, steps: seq<Step>, schedule: nat -> Step, from: nat, n: nat,
                        states': seq<State>, steps': seq<Step>)
  {
    && IsRun(states', steps') && states <= states' && steps <= steps' && |steps'| == |steps| + n
    && forall i :: |steps| <= i < |steps'| ==> steps'[i] == schedule(from + (i - |steps|))
  }

  lemma {:induction false} ScheduleEnds(states: seq<State>, steps: seq<Step>, schedule: nat -> Step, from: nat, k: nat)
    returns (n: nat, states': seq<State>, steps': seq<Step>)
    requires IsRun(states, steps) && forall t :: t in states[|steps|].txns ==> t < k
    ensures Obeys(states, steps, schedule, from, n, states', steps')
    ensures schedule(from + n).Start? || !Enabled(states'[|steps'|], schedule(from + n))
    decreases |states[|steps|].txns|, |Unlocked(states[|steps|].db, states[|steps|].txns)|,
              TotalWork(states[|steps|].db, states[|steps|].txns, k)
  {
    hide Inv;
    hide Apply;
    hide Enabled;
    hide TotalWork;
    hide Unlocked;
    var s, step := states[|steps|], schedule(from);
    if step.Start? || !Enabled(s, step) {
      n, states', steps' := 0, states, steps;
    } else {
      RunKeepsInv(states, steps, |steps|);
      OfRunning(s, step);
      EveryStepBringsNearer(s, step, k);
      RunOn(states, steps, step);
      var m;
      m, states', steps' := ScheduleEnds(states + [Apply(s, step)], steps + [step], schedule, from + 1, k);
      n := m + 1;
      forall i | |steps| <= i < |steps'| ensures steps'[i] == schedule(from + (i - |steps|)) {
        if i == |steps| { assert steps'[i] == (steps + [step])[i]; }
      }
    }
  }

  lemma OfRunning(s: State, step: Step)
    requires Enabled(s, step) && !step.Start?
    ensures step.t in s.txns
  {
  }

  /** No schedule of the running requests goes on for ever, whatever it picks, whichever client
      calls fail and however prune chooses its candidates: after some number of its steps it
      asks for a new request or for a step that is not enabled. A schedule that stops only where
      nothing can go on has therefore ended every request. */
  lemma EveryScheduleEnds(states: seq<State>, steps: seq<Step>, schedule: nat -> Step)
    returns (n: nat, states': seq<State>, steps': seq<Step>)
    requires IsRun(states, steps)
    ensures Obeys(states, steps, schedule, 0, n, states', steps')
    ensures schedule(n).Start? || !Enabled(states'[|steps'|], schedule(n))
    ensures (forall step :: CarriesOn(states'[|steps'|], step) ==> !Enabled(states'[|steps'|], step))
        ==> states'[|steps'|].txns == map[]
  {
    var k := KeyBound(states[|steps|].txns.Keys);
    n, states', steps' := ScheduleEnds(states, steps, schedule, 0, k);
    if states'[|steps'|].txns != map[] {
      var step := SomeoneCanMove(states', steps', |steps'|);
    }
  }
}
