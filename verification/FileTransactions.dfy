/** The request transactions that touch managed files, as a step relation.

    Every request is one READ COMMITTED transaction: a statement sees the committed
    tables overlaid with the transaction's own writes, row locks are held until the
    transaction ends, and object-store calls take effect at once. Steps of different
    transactions interleave freely; a step that needs a row lock held by another
    transaction is not enabled until that transaction ends. */
module FileTransactions {
  import opened Wrappers
  import opened FileDomain
  import opened Ordering

  type TxnId = nat

  datatype Lock = ArticleLock(article: ArticleId) | FileLock(file: FileId)

  /** A file an article is about to reference, with the purpose it must have. */
  datatype Ref = Ref(file: FileId, purpose: Purpose)

  /** `creates` for a new article; `after` is None for a deletion. */
  datatype Operation =
    | WriteArticle(article: ArticleId, after: Option<Article>, creates: bool, now: Time)
    | DeleteFile(file: FileId)
    | Upload(id: FileId, row: FileRow, now: Time)
    | Prune(namespace: string, cutoff: Time)

  /** What follows a `lock_files` statement. */
  datatype Goal =
    | Write                                    // insert, update or delete the article row and its links
    | Sync                                     // lock_files at the head of sync_file_usages
    | Attach                                   // set_files_attached
    | Orphan                                   // set_files_orphaned_if_unused
    | Inspect                                  // usage check of delete_file
    | Refresh(duplicate: FileId)               // refresh_file_orphaned_at
    | Mark(file: FileId, rest: seq<FileId>)    // prune marks a used candidate attached

  datatype Phase =
    | Begin
    | Check(refs: seq<Ref>)                    // ensure_files_allowed, one read per file
    | Locking(todo: seq<FileId>, goal: Goal)
    | Run(goal: Goal)
    | Collect(taken: seq<FileId>)              // prune's SELECT ... FOR UPDATE SKIP LOCKED
    | Sweep(rest: seq<FileId>)                 // prune's loop head
    | Erase(file: FileId, rest: seq<FileId>)   // the object is gone, the row is next
    | Insert
    | Put
    | Ready
    | Failed

  datatype Txn = Txn(
    op: Operation,
    phase: Phase,
    locks: set<Lock>,
    before: Option<Article>,              // the article row as read under its lock
    wrote: bool,                          // the article write or the new file row has been flushed
    files: map<FileId, Option<FileRow>>,  // pending file rows; None is a pending delete
    erased: set<FileId>                   // files whose object this transaction removed
  )

  datatype State = State(
    db: Tables,                 // committed rows
    objects: set<ObjectKey>,    // the object store
    seen: set<FileId>,          // every id that was ever committed
    txns: map<TxnId, Txn>       // running transactions
  )

  function Initial(): State {
    State(Tables(map[], map[]), {}, {}, map[])
  }

  // ---- what a transaction sees ----

  function ViewFiles(db: Tables, tx: Txn): map<FileId, FileRow> {
    map f | f in db.files.Keys + tx.files.Keys && (f in tx.files ==> tx.files[f].Some?) ::
      if f in tx.files then tx.files[f].value else db.files[f]
  }

  function ViewArticles(db: Tables, tx: Txn): map<ArticleId, Article> {
    if !(tx.op.WriteArticle? && tx.wrote) then db.articles
    else if tx.op.after.Some? then db.articles[tx.op.article := tx.op.after.value]
    else db.articles - {tx.op.article}
  }

  function View(db: Tables, tx: Txn): Tables {
    Tables(ViewFiles(db, tx), ViewArticles(db, tx))
  }

  // ---- the sets the use cases compute ----

  function After(tx: Txn): set<FileId> {
    if tx.op.WriteArticle? then ManagedOf(tx.op.after) else {}
  }

  function Detached(tx: Txn): set<FileId> {
    ManagedOf(tx.before) - After(tx)
  }

  function Transitioned(tx: Txn): set<FileId> {
    ManagedOf(tx.before) + After(tx)
  }

  /** The reads of ensure_files_allowed: the cover first, then the content ids in order. */
  function RefsOf(a: Option<Article>): (refs: seq<Ref>)
    ensures a.Some? ==> forall f :: f in a.value.content ==> Ref(f, ArticleContentImage) in refs
    ensures a.Some? && a.value.cover.Some? ==> Ref(a.value.cover.value, ArticleCoverImage) in refs
  {
    if a.None? then []
    else
      var ids := SortIds(a.value.content);
      var content := seq(|ids|, i requires 0 <= i < |ids| => Ref(ids[i], ArticleContentImage));
      assert forall f :: f in a.value.content ==> Ref(f, ArticleContentImage) in content by {
        forall f | f in a.value.content ensures Ref(f, ArticleContentImage) in content {
          assert f in ids;
          var i :| 0 <= i < |ids| && ids[i] == f;
          assert content[i] == Ref(f, ArticleContentImage);
        }
      }
      (if a.value.cover.Some? then [Ref(a.value.cover.value, ArticleCoverImage)] else []) + content
  }

  // ---- statements on file rows ----

  /** UPDATE ... SET orphaned_at = NULL WHERE id IN ids AND orphaned_at IS NOT NULL. */
  function Attached(view: Tables, ids: set<FileId>): map<FileId, Option<FileRow>> {
    map f | f in view.files && f in ids && view.files[f].orphanedAt.Some? ::
      Some(view.files[f].(orphanedAt := None))
  }

  /** UPDATE ... SET orphaned_at = now WHERE id IN ids AND NOT used. */
  function OrphanedIfUnused(view: Tables, ids: set<FileId>, now: Time): map<FileId, Option<FileRow>> {
    map f | f in view.files && f in ids && !HasUsages(view, f) ::
      Some(view.files[f].(orphanedAt := Some(now)))
  }

  // ---- locks ----

  predicate HeldByOther(s: State, t: TxnId, l: Lock) {
    exists u :: u in s.txns && u != t && l in s.txns[u].locks
  }

  /** The row lock the next statement of `tx` asks for, if the row exists. */
  function Wanted(db: Tables, tx: Txn): Option<Lock> {
    match tx.phase
    case Begin =>
      if tx.op.WriteArticle? && !tx.op.creates && tx.op.article in db.articles
      then Some(ArticleLock(tx.op.article)) else None
    case Locking(todo, _) =>
      if todo != [] && todo[0] in db.files then Some(FileLock(todo[0])) else None
    case _ => None
  }

  predicate Blocked(s: State, t: TxnId)
    requires t in s.txns
  {
    var w := Wanted(s.db, s.txns[t]);
    w.Some? && HeldByOther(s, t, w.value)
  }

  // ---- the next statement of a transaction ----

  /** The new row's object path is already used by a row or by an uncommitted insert. */
  predicate ObjectTaken(s: State, t: TxnId, key: ObjectKey) {
    || (exists f :: f in s.db.files && s.db.files[f].key == key)
    || (exists u :: u in s.txns && u != t && Inserted(s.txns[u]) && s.txns[u].op.row.key == key)
  }

  predicate Inserted(tx: Txn) {
    tx.op.Upload? && tx.wrote
  }

  function Fail(tx: Txn): Txn {
    tx.(phase := Failed)
  }

  /** The next statement of transaction `t`. `clientOk` tells whether the object-store call
      of this step, if any, succeeds. */
  function Advance(s: State, t: TxnId, clientOk: bool): Txn
    requires t in s.txns
  {
    var tx := s.txns[t];
    match tx.phase
    case Begin => AdvanceBegin(s.db, tx)
    case Check(_) => AdvanceCheck(s.db, tx)
    case Locking(_, _) => AdvanceLock(s.db, tx)
    case Run(_) => AdvanceRun(s.db, tx, clientOk)
    case Collect(taken) => tx.(phase := Sweep(taken))
    case Sweep(_) => AdvanceSweep(s.db, tx, clientOk)
    case Erase(_, _) => AdvanceErase(s.db, tx)
    case Insert => AdvanceInsert(s, t, tx)
    case Put => if clientOk then tx.(phase := Ready) else Fail(tx)
    case Ready => tx
    case Failed => tx
  }

  function AdvanceCheck(db: Tables, tx: Txn): Txn
    requires tx.phase.Check?
  {
    var refs := tx.phase.refs;
    if refs == [] then tx.(phase := Locking(SortIds(Transitioned(tx)), Write))
    else if RefOk(db, refs[0].file, refs[0].purpose) then tx.(phase := Check(refs[1..]))
    else Fail(tx)
  }

  function AdvanceLock(db: Tables, tx: Txn): Txn
    requires tx.phase.Locking?
  {
    var todo, goal := tx.phase.todo, tx.phase.goal;
    if todo == [] then tx.(phase := Run(goal))
    else if todo[0] !in db.files then tx.(phase := Locking(todo[1..], goal))
    else tx.(phase := Locking(todo[1..], goal), locks := tx.locks + {FileLock(todo[0])})
  }

  function AdvanceSweep(db: Tables, tx: Txn, clientOk: bool): Txn
    requires tx.phase.Sweep?
  {
    var rest := tx.phase.rest;
    if rest == [] then tx.(phase := Ready)
    else if HasUsages(View(db, tx), rest[0]) then tx.(phase := Locking([rest[0]], Mark(rest[0], rest[1..])))
    else if clientOk then tx.(phase := Erase(rest[0], rest[1..]), erased := tx.erased + {rest[0]})
    else tx.(phase := Sweep(rest[1..]))
  }

  /** DELETE of a file row; the RESTRICT foreign keys refuse it while an article uses the file. */
  function AdvanceErase(db: Tables, tx: Txn): Txn
    requires tx.phase.Erase?
  {
    if HasUsages(View(db, tx), tx.phase.file) then Fail(tx)
    else tx.(phase := Sweep(tx.phase.rest), files := tx.files[tx.phase.file := None])
  }

  function AdvanceInsert(s: State, t: TxnId, tx: Txn): Txn {
    if !tx.op.Upload? || tx.op.id in s.seen || HeldByOther(s, t, FileLock(tx.op.id)) || ObjectTaken(s, t, tx.op.row.key)
    then Fail(tx)
    else tx.(phase := Put, wrote := true, locks := tx.locks + {FileLock(tx.op.id)},
             files := tx.files[tx.op.id := Some(tx.op.row)])
  }

  function AdvanceBegin(db: Tables, tx: Txn): Txn {
    match tx.op
    case WriteArticle(a, after, creates, _) =>
      if creates then tx.(phase := Check(RefsOf(after)))
      else if a !in db.articles then Fail(tx)
      else tx.(phase := Check(RefsOf(after)), locks := tx.locks + {ArticleLock(a)}, before := Some(db.articles[a]))
    case DeleteFile(f) => tx.(phase := Locking([f], Inspect))
    case Upload(_, _, _) => tx
    case Prune(_, _) => tx.(phase := Collect([]))
  }

  function AdvanceRun(db: Tables, tx: Txn, clientOk: bool): Txn
    requires tx.phase.Run?
  {
    var view := View(db, tx);
    match tx.phase.goal
    case Write =>
      // the foreign keys from the article and its links to the file rows
      if tx.op.WriteArticle? && After(tx) <= db.files.Keys
      then tx.(wrote := true, phase := Locking(SortIds(Transitioned(tx)), Sync))
      else Fail(tx)
    case Sync => tx.(phase := Locking(SortIds(After(tx)), Attach))
    case Attach =>
      tx.(files := tx.files + Attached(view, After(tx)), phase := Locking(SortIds(Detached(tx)), Orphan))
    case Orphan =>
      if tx.op.WriteArticle?
      then tx.(files := tx.files + OrphanedIfUnused(view, Detached(tx), tx.op.now), phase := Ready)
      else Fail(tx)
    case Inspect =>
      if !tx.op.DeleteFile? || HasUsages(view, tx.op.file) || tx.op.file !in db.files || !clientOk then Fail(tx)
      else tx.(phase := Erase(tx.op.file, []), erased := tx.erased + {tx.op.file})
    case Refresh(d) =>
      // a row deleted while the lookup waited is skipped, and the lookup goes on
      if !tx.op.Upload? then Fail(tx)
      else if d !in db.files then tx.(phase := Begin)
      else if db.files[d].orphanedAt.None? then tx.(phase := Ready)
      else tx.(phase := Ready, files := tx.files[d := Some(db.files[d].(orphanedAt := Some(tx.op.now)))])
    case Mark(f, rest) =>
      tx.(files := tx.files + Attached(view, {f}), phase := Sweep(rest))
  }

  /** The object-store effect of the statement that turns `tx` into `next`. */
  function AdvanceObjects(s: State, tx: Txn, next: Txn): set<ObjectKey> {
    if tx.phase.Put? && tx.op.Upload? && next.phase.Ready? then s.objects + {tx.op.row.key}
    else s.objects - (set f | f in next.erased - tx.erased && f in s.db.files :: s.db.files[f].key)
  }

  // ---- steps ----

  datatype Step =
    | Start(t: TxnId, op: Operation)
    | Find(t: TxnId, duplicate: Option<FileId>)  // upload: the SHA-256 lookup, which locks the row it finds
    | Take(t: TxnId, f: FileId)                  // prune: one more candidate row
    | Go(t: TxnId, clientOk: bool)
    | Commit(t: TxnId)
    | Abort(t: TxnId)

  predicate SameContent(row: FileRow, upload: FileRow) {
    row.key.namespace == upload.key.namespace && row.purpose == upload.purpose && row.sha == upload.sha
  }

  /** The lookup's row: of the committed files with the same bytes, the first by (created_at, id). */
  predicate Oldest(db: Tables, row: FileRow, d: FileId) {
    && d in db.files && SameContent(db.files[d], row)
    && forall g :: g in db.files && g != d && SameContent(db.files[g], row) ==>
         db.files[d].createdAt < db.files[g].createdAt
           || (db.files[d].createdAt == db.files[g].createdAt && LexLess(d, g))
  }

  predicate NewRow(op: Operation)
    requires op.Upload?
  {
    op.row.orphanedAt == Some(op.now) && op.row.createdAt == op.now
  }

  predicate Enabled(s: State, step: Step) {
    match step
    case Start(t, op) =>
      && t !in s.txns
      // a created article gets an id no committed row or running request has
      && (op.WriteArticle? && op.creates ==>
            op.after.Some? && op.article !in s.db.articles && !HeldByOther(s, t, ArticleLock(op.article)))
      // an uploaded file starts out orphaned, created now
      && (op.Upload? ==> NewRow(op))
    case Find(t, d) =>
      && t in s.txns && s.txns[t].op.Upload? && s.txns[t].phase.Begin?
      && (if d.Some? then Oldest(s.db, s.txns[t].op.row, d.value)
          else forall f :: f in s.db.files ==> !SameContent(s.db.files[f], s.txns[t].op.row))
    case Take(t, f) =>
      // the usage filter of the query may have read a stale snapshot, so it is not a guard
      && t in s.txns && s.txns[t].op.Prune? && s.txns[t].phase.Collect?
      && f in s.db.files
      && s.db.files[f].key.namespace == s.txns[t].op.namespace
      && s.db.files[f].orphanedAt.Some? && s.db.files[f].orphanedAt.value < s.txns[t].op.cutoff
      && FileLock(f) !in s.txns[t].locks && !HeldByOther(s, t, FileLock(f))
    case Go(t, _) =>
      && t in s.txns && !Blocked(s, t)
      && !s.txns[t].phase.Ready? && !s.txns[t].phase.Failed? && !(s.txns[t].phase.Begin? && s.txns[t].op.Upload?)
    case Commit(t) => t in s.txns && s.txns[t].phase.Ready?
    case Abort(t) => t in s.txns && s.txns[t].erased == {}  // a transaction that removed an object commits
  }

  function StartTxn(op: Operation): Txn {
    Txn(op, Begin, if op.WriteArticle? && op.creates then {ArticleLock(op.article)} else {}, None, false, map[], {})
  }

  function Apply(s: State, step: Step): State
    requires Enabled(s, step)
  {
    match step
    case Start(t, op) => s.(txns := s.txns[t := StartTxn(op)])
    case Find(t, d) =>
      var tx := s.txns[t];
      s.(txns := s.txns[t := tx.(phase := if d.Some? then Locking([d.value], Refresh(d.value)) else Insert)])
    case Take(t, f) =>
      var tx := s.txns[t];
      s.(txns := s.txns[t := tx.(phase := Collect(tx.phase.taken + [f]), locks := tx.locks + {FileLock(f)})])
    case Go(t, ok) =>
      var next := Advance(s, t, ok);
      s.(txns := s.txns[t := next], objects := AdvanceObjects(s, s.txns[t], next))
    case Commit(t) =>
      var db := View(s.db, s.txns[t]);
      s.(db := db, seen := s.seen + db.files.Keys, txns := s.txns - {t})
    case Abort(t) => s.(txns := s.txns - {t})
  }

  /** `states` follows `steps` from the empty database. */
  ghost predicate Follows(states: seq<State>, steps: seq<Step>) {
    && |states| == |steps| + 1
    && states[0] == Initial()
    && (forall i :: 0 <= i < |steps| ==> Enabled(states[i], steps[i]) && states[i + 1] == Apply(states[i], steps[i]))
  }

  /** An assumption on the clients: a request to delete a file names an id that some upload has
      committed. */
  predicate NamesCommitted(s: State, step: Step) {
    step.Start? && step.op.DeleteFile? ==> step.op.file in s.seen
  }

  /** A run in which every delete request names a file that was committed. */
  ghost predicate IsRun(states: seq<State>, steps: seq<Step>) {
    Follows(states, steps) && forall i :: 0 <= i < |steps| ==> NamesCommitted(states[i], steps[i])
  }
}
