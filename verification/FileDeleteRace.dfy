/** Why a delete request has to name a committed file: a request that ran its lock statement
    before the upload committed holds no lock, and its object removal is then unprotected. */
module FileDeleteRace {
  import opened Wrappers
  import opened FileDomain
  import opened Ordering
  import opened FileTransactions
  import opened FileTransactionInvariant
  import opened FileTransactionSteps
  import opened FileTransactionSafety

  datatype History = History(states: seq<State>, steps: seq<Step>) {
    ghost predicate Valid() {
      IsRun(states, steps)
    }

    function Last(): State
      requires |states| == |steps| + 1
    {
      states[|steps|]
    }
  }

  /** A continuation of run `h` that starts with a request to delete `f`; every other delete
      request in it names a committed file. */
  ghost predicate ContinuesWith(h: History, f: FileId, states: seq<State>, steps: seq<Step>) {
    && |states| == |steps| + 1 && Follows(states, steps) && h.states <= states
    && h.steps + [Start(0, DeleteFile(f))] <= steps
    && forall i :: |h.steps| < i < |steps| ==> NamesCommitted(states[i], steps[i])
  }

  ghost predicate Reached(h: History, f: FileId, s: State) {
    exists states, steps :: ContinuesWith(h, f, states, steps) && states[|steps|] == s
  }

  /** A committed article uses a file whose row or object is gone. */
  ghost predicate Damaged(s: State) {
    exists a, g :: Uses(s.db, a, g) && (g !in s.db.files || s.db.files[g].key !in s.objects)
  }

  lemma FollowsNext(states: seq<State>, steps: seq<Step>, step: Step)
    requires Follows(states, steps) && Enabled(states[|steps|], step)
    ensures Follows(states + [Apply(states[|steps|], step)], steps + [step])
  {
    hide Enabled;
    hide Apply;
    var states', steps' := states + [Apply(states[|steps|], step)], steps + [step];
    forall i | 0 <= i < |steps'|
      ensures Enabled(states'[i], steps'[i]) && states'[i + 1] == Apply(states'[i], steps'[i]) {
      if i < |steps| { assert states[i + 1] == Apply(states[i], steps[i]); }
    }
  }

  lemma ReachNext(h: History, f: FileId, s: State, step: Step)
    requires Reached(h, f, s) && Enabled(s, step) && NamesCommitted(s, step)
    ensures Reached(h, f, Apply(s, step))
  {
    hide Follows;
    hide Enabled;
    hide Apply;
    var states, steps :| ContinuesWith(h, f, states, steps) && states[|steps|] == s;
    FollowsNext(states, steps, step);
    var states', steps' := states + [Apply(s, step)], steps + [step];
    assert ContinuesWith(h, f, states', steps');
    assert states'[|steps'|] == Apply(s, step);
  }

  lemma FollowsLength(states: seq<State>, steps: seq<Step>)
    requires Follows(states, steps)
    ensures |states| == |steps| + 1
  {
  }

  /** A statement without an object-store effect. */
  lemma ReachGo(h: History, f: FileId, s: State, t: TxnId, next: Txn)
    requires Reached(h, f, s) && t in s.txns && !Blocked(s, t) && next == Advance(s, t, true)
    requires next.erased == s.txns[t].erased
    requires !s.txns[t].phase.Ready? && !s.txns[t].phase.Failed? && !s.txns[t].phase.Put?
    requires !(s.txns[t].phase.Begin? && s.txns[t].op.Upload?)
    ensures Reached(h, f, s.(txns := s.txns[t := next]))
  {
    hide Reached;
    ReachNext(h, f, s, Go(t, true));
    assert AdvanceObjects(s, s.txns[t], next) == s.objects;
  }

  // ---- the scene ----

  /** Where the race starts: no request is running in `base`, `f` was never committed, and `row`
      and `article` are the content and the user that `f` is about to get. */
  datatype Scene = Scene(base: State, f: FileId, row: FileRow, article: ArticleId) {
    ghost predicate Valid() {
      && base.txns == map[] && f !in base.seen && f !in base.db.files && !HasUsages(base.db, f)
      && row.purpose == ArticleContentImage && row.orphanedAt == Some(row.createdAt)
      && (forall g :: g in base.db.files ==> base.db.files[g].key != row.key && !SameContent(base.db.files[g], row))
      && article !in base.db.articles
    }

    function User(): Article { Article(None, {f}) }

    function Stored(): Tables { base.db.(files := base.db.files[f := row]) }

    function UploadOp(): Operation { Upload(f, row, row.createdAt) }

    function WriteOp(): Operation { WriteArticle(article, Some(User()), true, row.createdAt) }

    function Waiting(phase: Phase): Txn { Txn(DeleteFile(f), phase, {}, None, false, map[], {}) }

    /** The delete request with its lock statement behind it, and one other request. */
    function Beside(db: Tables, objects: set<ObjectKey>, seen: set<FileId>, tx: Txn): State {
      State(db, objects, seen, map[0 := Waiting(Run(Inspect)), 1 := tx])
    }

    function Alone(db: Tables, objects: set<ObjectKey>, seen: set<FileId>): State {
      State(db, objects, seen, map[0 := Waiting(Run(Inspect))])
    }
  }

  // ---- the delete request locks nothing ----

  lemma DeleteStarts(h: History, c: Scene)
    requires h.Valid() && h.Last() == c.base && c.Valid()
    ensures Reached(h, c.f, c.base.(txns := map[0 := c.Waiting(Begin)]))
  {
    var step := Start(0, DeleteFile(c.f));
    FollowsNext(h.states, h.steps, step);
    var states, steps := h.states + [Apply(c.base, step)], h.steps + [step];
    assert ContinuesWith(h, c.f, states, steps);
    assert c.base.txns[0 := c.Waiting(Begin)] == map[0 := c.Waiting(Begin)];
    assert states[|steps|] == c.base.(txns := map[0 := c.Waiting(Begin)]);
  }

  lemma DeleteMoves(h: History, c: Scene, phase: Phase, next: Phase)
    requires Reached(h, c.f, c.base.(txns := map[0 := c.Waiting(phase)])) && c.Valid()
    requires (phase == Begin && next == Locking([c.f], Inspect))
          || (phase == Locking([c.f], Inspect) && next == Locking([], Inspect))
          || (phase == Locking([], Inspect) && next == Run(Inspect))
    ensures Reached(h, c.f, c.base.(txns := map[0 := c.Waiting(next)]))
  {
    hide Reached;
    var s := c.base.(txns := map[0 := c.Waiting(phase)]);
    assert [c.f][1..] == [];
    ReachGo(h, c.f, s, 0, c.Waiting(next));
    assert s.txns[0 := c.Waiting(next)] == map[0 := c.Waiting(next)];
  }

  lemma DeleteLocksNothing(h: History, c: Scene)
    requires h.Valid() && h.Last() == c.base && c.Valid()
    ensures Reached(h, c.f, c.Alone(c.base.db, c.base.objects, c.base.seen))
  {
    hide Reached;
    DeleteStarts(h, c);
    DeleteMoves(h, c, Begin, Locking([c.f], Inspect));
    DeleteMoves(h, c, Locking([c.f], Inspect), Locking([], Inspect));
    DeleteMoves(h, c, Locking([], Inspect), Run(Inspect));
  }

  // ---- another request next to it ----

  /** Nothing the delete request does can block the other one. */
  lemma NotBlocked(c: Scene, db: Tables, objects: set<ObjectKey>, seen: set<FileId>, tx: Txn)
    ensures !Blocked(c.Beside(db, objects, seen, tx), 1)
  {
  }

  lemma BesideStart(h: History, c: Scene, db: Tables, objects: set<ObjectKey>, seen: set<FileId>, op: Operation)
    requires Reached(h, c.f, c.Alone(db, objects, seen)) && Enabled(c.Alone(db, objects, seen), Start(1, op))
    requires !op.DeleteFile?
    ensures Reached(h, c.f, c.Beside(db, objects, seen, StartTxn(op)))
  {
    hide Reached;
    hide StartTxn;
    var s := c.Alone(db, objects, seen);
    ReachNext(h, c.f, s, Start(1, op));
    assert s.txns[1 := StartTxn(op)] == c.Beside(db, objects, seen, StartTxn(op)).txns;
  }

  lemma BesideGo(h: History, c: Scene, db: Tables, objects: set<ObjectKey>, seen: set<FileId>, tx: Txn, next: Txn)
    requires Reached(h, c.f, c.Beside(db, objects, seen, tx))
    requires next == Advance(c.Beside(db, objects, seen, tx), 1, true)
    requires next.erased == tx.erased
    requires !tx.phase.Ready? && !tx.phase.Failed? && !tx.phase.Put? && !(tx.phase.Begin? && tx.op.Upload?)
    ensures Reached(h, c.f, c.Beside(db, objects, seen, next))
  {
    hide Reached;
    hide Advance;
    hide Blocked;
    var s := c.Beside(db, objects, seen, tx);
    NotBlocked(c, db, objects, seen, tx);
    ReachGo(h, c.f, s, 1, next);
    assert s.txns[1 := next] == c.Beside(db, objects, seen, next).txns;
  }

  // ---- the upload commits ----

  function Uploading(c: Scene, phase: Phase): Txn {
    Txn(c.UploadOp(), phase, {FileLock(c.f)}, None, true, map[c.f := Some(c.row)], {})
  }

  lemma UploadInserts(h: History, c: Scene)
    requires h.Valid() && h.Last() == c.base && c.Valid()
    ensures Reached(h, c.f, c.Beside(c.base.db, c.base.objects, c.base.seen, Uploading(c, Put)))
  {
    hide Reached;
    var db, objects, seen := c.base.db, c.base.objects, c.base.seen;
    DeleteLocksNothing(h, c);
    BesideStart(h, c, db, objects, seen, c.UploadOp());
    var started := StartTxn(c.UploadOp());
    var found, s := started.(phase := Insert), c.Beside(db, objects, seen, started);
    ReachNext(h, c.f, s, Find(1, None));
    assert Apply(s, Find(1, None)).txns == c.Beside(db, objects, seen, found).txns;
    BesideGo(h, c, db, objects, seen, found, Uploading(c, Put));
  }

  lemma UploadPuts(h: History, c: Scene)
    requires h.Valid() && h.Last() == c.base && c.Valid()
    ensures Reached(h, c.f, c.Beside(c.base.db, c.base.objects + {c.row.key}, c.base.seen, Uploading(c, Ready)))
  {
    hide Reached;
    var db, objects, seen := c.base.db, c.base.objects, c.base.seen;
    UploadInserts(h, c);
    var s := c.Beside(db, objects, seen, Uploading(c, Put));
    NotBlocked(c, db, objects, seen, Uploading(c, Put));
    ReachNext(h, c.f, s, Go(1, true));
    assert Advance(s, 1, true) == Uploading(c, Ready);
    assert s.txns[1 := Uploading(c, Ready)] == c.Beside(db, objects, seen, Uploading(c, Ready)).txns;
    assert Apply(s, Go(1, true)) == c.Beside(db, objects + {c.row.key}, seen, Uploading(c, Ready));
  }

  lemma UploadCommits(h: History, c: Scene)
    requires h.Valid() && h.Last() == c.base && c.Valid()
    ensures Reached(h, c.f, c.Alone(c.Stored(), c.base.objects + {c.row.key}, c.base.seen + c.Stored().files.Keys))
  {
    hide Reached;
    var db, objects, seen, tx := c.base.db, c.base.objects + {c.row.key}, c.base.seen, Uploading(c, Ready);
    UploadPuts(h, c);
    var s := c.Beside(db, objects, seen, tx);
    assert ViewFiles(db, tx) == db.files[c.f := c.row];
    assert View(db, tx) == c.Stored();
    ReachNext(h, c.f, s, Commit(1));
    assert s.txns - {1} == c.Alone(db, objects, seen).txns;
  }

  // ---- an article takes the file into use ----

  function Writing(c: Scene, phase: Phase, locks: set<Lock>, wrote: bool, files: map<FileId, Option<FileRow>>): Txn {
    Txn(c.WriteOp(), phase, {ArticleLock(c.article)} + locks, None, wrote, files, {})
  }

  function Objects(c: Scene): set<ObjectKey> { c.base.objects + {c.row.key} }

  function Seen(c: Scene): set<FileId> { c.base.seen + c.Stored().files.Keys }

  ghost predicate ReachedWriting(h: History, c: Scene, phase: Phase, locks: set<Lock>, wrote: bool,
                                 files: map<FileId, Option<FileRow>>) {
    Reached(h, c.f, c.Beside(c.Stored(), Objects(c), Seen(c), Writing(c, phase, locks, wrote, files)))
  }

  /** The next statement of the article request. */
  lemma WritingGo(h: History, c: Scene, tx: Txn, next: Txn)
    requires Reached(h, c.f, c.Beside(c.Stored(), Objects(c), Seen(c), tx)) && tx.op == c.WriteOp()
    requires next.erased == tx.erased
    requires !tx.phase.Ready? && !tx.phase.Failed? && !tx.phase.Put?
    requires next == Advance(c.Beside(c.Stored(), Objects(c), Seen(c), tx), 1, true)
    ensures Reached(h, c.f, c.Beside(c.Stored(), Objects(c), Seen(c), next))
  {
    hide Reached;
    hide Advance;
    BesideGo(h, c, c.Stored(), Objects(c), Seen(c), tx, next);
  }

  lemma SortedOne(f: FileId)
    ensures SortIds({f}) == [f]
  {
    var one := SortIds({f});
    assert f in one;
    if |one| >= 2 {
      assert one[0] in one && one[1] in one;
      LexIrreflexive(f);
    }
    assert one[0] in one && one == [f];
  }

  lemma SortedNone()
    ensures SortIds({}) == []
  {
    assert forall x :: x !in SortIds({});
  }

  lemma OneRef(c: Scene)
    ensures RefsOf(Some(c.User())) == [Ref(c.f, ArticleContentImage)]
  {
    SortedOne(c.f);
  }

  lemma ArticleChecks(h: History, c: Scene)
    requires h.Valid() && h.Last() == c.base && c.Valid()
    ensures ReachedWriting(h, c, Check([]), {}, false, map[])
  {
    hide Reached;
    hide RefsOf;
    UploadCommits(h, c);
    OneRef(c);
    BesideStart(h, c, c.Stored(), Objects(c), Seen(c), c.WriteOp());
    var ref := Ref(c.f, ArticleContentImage);
    assert StartTxn(c.WriteOp()) == Writing(c, Begin, {}, false, map[]);
    WritingGo(h, c, Writing(c, Begin, {}, false, map[]), Writing(c, Check([ref]), {}, false, map[]));
    assert [ref][1..] == [];
    WritingGo(h, c, Writing(c, Check([ref]), {}, false, map[]), Writing(c, Check([]), {}, false, map[]));
  }

  lemma ArticleSets(c: Scene, tx: Txn)
    requires tx.op == c.WriteOp() && tx.before.None?
    ensures After(tx) == {c.f} && Transitioned(tx) == {c.f} && Detached(tx) == {}
  {
  }

  lemma ArticleChecked(h: History, c: Scene)
    requires h.Valid() && h.Last() == c.base && c.Valid()
    ensures ReachedWriting(h, c, Locking([c.f], Write), {}, false, map[])
  {
    hide Reached;
    hide SortIds;
    hide Transitioned;
    ArticleChecks(h, c);
    SortedOne(c.f);
    ArticleSets(c, Writing(c, Check([]), {}, false, map[]));
    WritingGo(h, c, Writing(c, Check([]), {}, false, map[]), Writing(c, Locking([c.f], Write), {}, false, map[]));
  }

  /** Locking the file again, or for the first time, and going on. */
  lemma ArticleLocks(h: History, c: Scene, locks: set<Lock>, goal: Goal, wrote: bool)
    requires ReachedWriting(h, c, Locking([c.f], goal), locks, wrote, map[]) && locks <= {FileLock(c.f)}
    ensures ReachedWriting(h, c, Run(goal), {FileLock(c.f)}, wrote, map[])
  {
    hide Reached;
    assert [c.f][1..] == []
      && {ArticleLock(c.article)} + locks + {FileLock(c.f)} == {ArticleLock(c.article)} + {FileLock(c.f)};
    WritingGo(h, c, Writing(c, Locking([c.f], goal), locks, wrote, map[]),
              Writing(c, Locking([], goal), {FileLock(c.f)}, wrote, map[]));
    WritingGo(h, c, Writing(c, Locking([], goal), {FileLock(c.f)}, wrote, map[]),
              Writing(c, Run(goal), {FileLock(c.f)}, wrote, map[]));
  }

  lemma ArticleWrites(h: History, c: Scene)
    requires h.Valid() && h.Last() == c.base && c.Valid()
    ensures ReachedWriting(h, c, Run(Attach), {FileLock(c.f)}, true, map[])
  {
    hide Reached;
    hide SortIds;
    hide Transitioned;
    hide After;
    SortedOne(c.f);
    ArticleChecked(h, c);
    ArticleLocks(h, c, {}, Write, false);
    var locks := {FileLock(c.f)};
    ArticleSets(c, Writing(c, Run(Write), locks, false, map[]));
    WritingGo(h, c, Writing(c, Run(Write), locks, false, map[]), Writing(c, Locking([c.f], Sync), locks, true, map[]));
    ArticleLocks(h, c, locks, Sync, true);
    ArticleSets(c, Writing(c, Run(Sync), locks, true, map[]));
    WritingGo(h, c, Writing(c, Run(Sync), locks, true, map[]), Writing(c, Locking([c.f], Attach), locks, true, map[]));
    ArticleLocks(h, c, locks, Attach, true);
  }

  function AttachedRow(c: Scene): map<FileId, Option<FileRow>> {
    map[c.f := Some(c.row.(orphanedAt := None))]
  }

  lemma AttachesOne(c: Scene, tx: Txn)
    requires c.Valid() && tx == Writing(c, Run(Attach), {FileLock(c.f)}, true, map[])
    ensures tx.files + Attached(View(c.Stored(), tx), {c.f}) == AttachedRow(c)
  {
    assert View(c.Stored(), tx).files == c.Stored().files;
  }

  lemma ArticleAttaches(h: History, c: Scene)
    requires h.Valid() && h.Last() == c.base && c.Valid()
    ensures ReachedWriting(h, c, Run(Orphan), {FileLock(c.f)}, true, AttachedRow(c))
  {
    hide Reached;
    hide SortIds;
    hide Attached;
    hide View;
    hide After;
    hide Detached;
    SortedNone();
    ArticleWrites(h, c);
    var locks, files := {FileLock(c.f)}, AttachedRow(c);
    var tx := Writing(c, Run(Attach), locks, true, map[]);
    ArticleSets(c, tx);
    AttachesOne(c, tx);
    WritingGo(h, c, tx, Writing(c, Locking([], Orphan), locks, true, files));
    WritingGo(h, c, Writing(c, Locking([], Orphan), locks, true, files), Writing(c, Run(Orphan), locks, true, files));
  }

  lemma NothingDetached(view: Tables, files: map<FileId, Option<FileRow>>, now: Time)
    ensures files + OrphanedIfUnused(view, {}, now) == files
  {
  }

  lemma ArticleReady(h: History, c: Scene)
    requires h.Valid() && h.Last() == c.base && c.Valid()
    ensures ReachedWriting(h, c, Ready, {FileLock(c.f)}, true, AttachedRow(c))
  {
    hide Reached;
    hide OrphanedIfUnused;
    hide View;
    hide Detached;
    ArticleAttaches(h, c);
    var tx := Writing(c, Run(Orphan), {FileLock(c.f)}, true, AttachedRow(c));
    ArticleSets(c, tx);
    NothingDetached(View(c.Stored(), tx), tx.files, c.row.createdAt);
    WritingGo(h, c, tx, Writing(c, Ready, {FileLock(c.f)}, true, AttachedRow(c)));
  }

  // ---- the object goes, the article stays ----

  function Erasing(c: Scene): Txn { c.Waiting(Erase(c.f, [])).(erased := {c.f}) }

  lemma ObjectGoes(h: History, c: Scene)
    requires h.Valid() && h.Last() == c.base && c.Valid()
    ensures
      var article := Writing(c, Ready, {FileLock(c.f)}, true, AttachedRow(c));
      Reached(h, c.f, State(c.Stored(), Objects(c) - {c.row.key}, Seen(c), map[0 := Erasing(c), 1 := article]))
  {
    hide Reached;
    ArticleReady(h, c);
    var article := Writing(c, Ready, {FileLock(c.f)}, true, AttachedRow(c));
    var s := c.Beside(c.Stored(), Objects(c), Seen(c), article);
    assert !Blocked(s, 0);
    InspectErases(c, article);
    ReachNext(h, c.f, s, Go(0, true));
    hide Advance;
    hide AdvanceObjects;
    var s' := Apply(s, Go(0, true));
    assert s'.txns == map[0 := Erasing(c), 1 := article];
  }

  lemma InspectErases(c: Scene, article: Txn)
    requires c.Valid()
    ensures
      var s := c.Beside(c.Stored(), Objects(c), Seen(c), article);
      && Advance(s, 0, true) == Erasing(c)
      && AdvanceObjects(s, c.Waiting(Run(Inspect)), Erasing(c)) == Objects(c) - {c.row.key}
  {
    SameUsages(c.base.db, View(c.Stored(), c.Waiting(Run(Inspect))), c.f);
  }

  lemma DamageReached(h: History, c: Scene) returns (s: State)
    requires h.Valid() && h.Last() == c.base && c.Valid()
    ensures Reached(h, c.f, s) && Damaged(s)
  {
    hide Reached;
    ObjectGoes(h, c);
    var article := Writing(c, Ready, {FileLock(c.f)}, true, AttachedRow(c));
    var s' := State(c.Stored(), Objects(c) - {c.row.key}, Seen(c), map[0 := Erasing(c), 1 := article]);
    ReachNext(h, c.f, s', Commit(1));
    s := Apply(s', Commit(1));
    assert s.db.files[c.f].key == c.row.key;
    assert Uses(s.db, c.article, c.f);
  }

  // ---- the exact condition on the name ----

  lemma {:induction false} Longer(texts: set<string>) returns (x: string)
    ensures forall y :: y in texts ==> |y| < |x|
  {
    if texts == {} {
      x := "x";
    } else {
      var y :| y in texts;
      x := Longer(texts - {y});
      assert forall z :: z in texts ==> z == y || z in texts - {y};
      if |x| <= |y| { x := y + "x"; }
    }
  }

  /** A scene for every quiet state and every file that was never committed. */
  lemma SceneFor(s: State, f: FileId) returns (c: Scene)
    requires Consistent(s.db) && s.db.files.Keys <= s.seen && s.txns == map[] && f !in s.seen
    ensures c.Valid() && c.base == s && c.f == f
  {
    var paths := set g | g in s.db.files :: s.db.files[g].key.path;
    var shas := set g | g in s.db.files :: s.db.files[g].sha;
    var path := Longer(paths);
    var sha := Longer(shas);
    var article := Longer(s.db.articles.Keys);
    UnseenUnused(s.db, s.seen, f);
    c := Scene(s, f, FileRow(ArticleContentImage, ObjectKey("files", path), sha, 0, Some(0)), article);
    forall g | g in s.db.files ensures s.db.files[g].key != c.row.key && !SameContent(s.db.files[g], c.row) {
      assert s.db.files[g].key.path in paths && s.db.files[g].sha in shas;
    }
  }

  lemma CommittedNameIsSafe(h: History, f: FileId, s: State)
    requires h.Valid() && f in h.Last().seen && Reached(h, f, s)
    ensures !Damaged(s)
  {
    hide Follows;
    var states, steps :| ContinuesWith(h, f, states, steps) && states[|steps|] == s;
    FollowsLength(h.states, h.steps);
    forall i | 0 <= i < |steps| ensures NamesCommitted(states[i], steps[i]) {
      if i <= |h.steps| { assert states[i] == h.states[i] && steps[i] == (h.steps + [Start(0, DeleteFile(f))])[i]; }
    }
    forall a, g | Uses(s.db, a, g) ensures g in s.db.files && s.db.files[g].key in s.objects {
      UsedFilesKept(states, steps, |steps|, a);
    }
  }

  /** After every run that has come to rest, a request to delete `f` can end in a damaged
      article, with all other requests proper, exactly when `f` was never committed. */
  lemma DeleteNameExact(h: History, f: FileId)
    requires h.Valid() && h.Last().txns == map[]
    ensures (exists s :: Reached(h, f, s) && Damaged(s)) <==> f !in h.Last().seen
  {
    hide Reached;
    hide Damaged;
    if f !in h.Last().seen {
      RunKeepsInv(h.states, h.steps, |h.steps|);
      var c := SceneFor(h.Last(), f);
      var s := DamageReached(h, c);
    } else {
      forall s | Reached(h, f, s) ensures !Damaged(s) { CommittedNameIsSafe(h, f, s); }
    }
  }
}
