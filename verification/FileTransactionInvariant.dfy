/** What every interleaving keeps: a per-transaction invariant that is stable under
    the commits of the others (rely-guarantee), and the invariant of the whole state. */
module FileTransactionInvariant {
  import opened Wrappers
  import opened FileDomain
  import opened Ordering
  import opened FileTransactions

  function Current(db: Tables, a: ArticleId): Option<Article> {
    if a in db.articles then Some(db.articles[a]) else None
  }

  /** `f` was committed once, and while its row exists `tx` holds its lock. */
  predicate Covered(db: Tables, seen: set<FileId>, tx: Txn, f: FileId) {
    f in seen && (f in db.files ==> FileLock(f) in tx.locks)
  }

  /** The purpose check of `r` has passed; the row may be gone since, but never changes. */
  predicate Checked(db: Tables, seen: set<FileId>, r: Ref) {
    r.file in seen && (r.file in db.files ==> db.files[r.file].purpose == r.purpose)
  }

  predicate Marked(tables: Tables, f: FileId)
    requires f in tables.files
  {
    tables.files[f].orphanedAt.None? <==> HasUsages(tables, f)
  }

  predicate LocksReal(db: Tables, seen: set<FileId>, tx: Txn) {
    forall l :: l in tx.locks ==>
      match l
      case ArticleLock(a) =>
        tx.op.WriteArticle? && a == tx.op.article && (tx.op.creates <==> a !in db.articles)
      case FileLock(f) =>
        if Inserted(tx) && f == tx.op.id then f !in seen && f !in db.files else f in db.files
  }

  predicate WritesGuarded(db: Tables, tx: Txn) {
    forall f :: f in tx.files ==>
      && FileLock(f) in tx.locks
      && (tx.files[f].None? ==> f in tx.erased)
      && (tx.files[f].Some? && f in db.files ==>
            tx.files[f].value == db.files[f].(orphanedAt := tx.files[f].value.orphanedAt))
  }

  predicate ErasedOk(db: Tables, tx: Txn) {
    forall f :: f in tx.erased ==>
      && FileLock(f) in tx.locks && f in db.files && !HasUsages(db, f)
      && ((f in tx.files && tx.files[f].None?) || (tx.phase.Erase? && tx.phase.file == f && f !in tx.files))
  }

  predicate Empty(tx: Txn) {
    tx.files == map[] && tx.erased == {} && !tx.wrote
  }

  predicate Distinct(ids: seq<FileId>) {
    forall i, j :: 0 <= i < j < |ids| ==> ids[i] != ids[j]
  }

  /** What prune's query asks of a row besides its usages. */
  predicate Candidate(db: Tables, op: Operation, f: FileId) {
    && op.Prune? && f in db.files && db.files[f].key.namespace == op.namespace
    && db.files[f].orphanedAt.Some? && db.files[f].orphanedAt.value < op.cutoff
  }

  /** Candidates still to be swept: locked, untouched and orphaned. */
  predicate ToSweep(db: Tables, tx: Txn, rest: seq<FileId>) {
    Distinct(rest) && forall f :: f in rest ==>
      FileLock(f) in tx.locks && f !in tx.files && f !in tx.erased && Candidate(db, tx.op, f)
  }

  // ---- article requests ----

  predicate LockBefore(a: Lock, b: Lock) {
    match (a, b)
    case (ArticleLock(x), ArticleLock(y)) => LexLess(x, y)
    case (ArticleLock(_), FileLock(_)) => true
    case (FileLock(_), ArticleLock(_)) => false
    case (FileLock(x), FileLock(y)) => LexLess(x, y)
  }

  predicate AllCovered(db: Tables, seen: set<FileId>, tx: Txn) {
    forall f :: f in Transitioned(tx) ==> Covered(db, seen, tx, f)
  }

  /** The article row is written and every file it references exists and is locked. */
  predicate Written(db: Tables, seen: set<FileId>, tx: Txn) {
    tx.wrote && AllCovered(db, seen, tx) && After(tx) <= db.files.Keys
  }

  predicate Within(todo: seq<FileId>, ids: set<FileId>) {
    forall f :: f in todo ==> f in ids
  }

  predicate AttachedOk(db: Tables, tx: Txn) {
    && (forall f :: f in tx.files ==> f in After(tx) && tx.files[f].Some? && tx.files[f].value.orphanedAt.None?)
    && (forall f :: f in After(tx) ==> f in tx.files || (f in db.files && db.files[f].orphanedAt.None?))
  }

  predicate Settled(db: Tables, tx: Txn)
    requires tx.op.WriteArticle?
  {
    && tx.files.Keys <= Transitioned(tx)
    && (forall f ::
        f in tx.files && f in Detached(tx) ==> tx.files[f].Some? && tx.files[f].value.orphanedAt == Some(tx.op.now))
    && var view := View(db, tx);
       forall f :: f in Transitioned(tx) && f in view.files ==> Marked(view, f)
  }

  predicate ArticlePhaseOk(db: Tables, seen: set<FileId>, tx: Txn)
    requires tx.op.WriteArticle?
  {
    && tx.erased == {}
    && (tx.op.creates ==> tx.op.after.Some?)
    && match tx.phase
       case Begin =>
         Empty(tx) && tx.before.None? && tx.locks == if tx.op.creates then {ArticleLock(tx.op.article)} else {}
       case Failed => true
       case _ =>
         && ArticleLock(tx.op.article) in tx.locks
         && tx.before == Current(db, tx.op.article)
         && ArticleBodyOk(db, seen, tx)
  }

  predicate ArticleBodyOk(db: Tables, seen: set<FileId>, tx: Txn)
    requires tx.op.WriteArticle?
  {
    var refs := RefsOf(tx.op.after);
    if tx.phase.Check? then
      && Empty(tx) && tx.locks == {ArticleLock(tx.op.article)}
      && (forall r :: r in refs ==> r in tx.phase.refs || Checked(db, seen, r))
    else
      && (forall r :: r in refs ==> Checked(db, seen, r))
      && match tx.phase
         case Locking(todo, goal) =>
           && Within(todo, Transitioned(tx))
           && (match goal
               case Write =>
                 && Empty(tx) && Ascending(todo)
                 && (forall f :: f in Transitioned(tx) ==> f in todo || Covered(db, seen, tx, f))
                 && (forall f :: f in Transitioned(tx) ==> f in seen)
                 && (forall l, f :: l in tx.locks && f in todo ==> LockBefore(l, FileLock(f)))
               case Sync => Written(db, seen, tx) && tx.files == map[]
               case Attach => Written(db, seen, tx) && tx.files == map[]
               case Orphan => Written(db, seen, tx) && AttachedOk(db, tx)
               case _ => false)
         case Run(goal) =>
           (match goal
            case Write => Empty(tx) && AllCovered(db, seen, tx)
            case Sync => Written(db, seen, tx) && tx.files == map[]
            case Attach => Written(db, seen, tx) && tx.files == map[]
            case Orphan => Written(db, seen, tx) && AttachedOk(db, tx)
            case _ => false)
         case Ready => Written(db, seen, tx) && Settled(db, tx)
         case _ => false
  }

  // ---- the other requests ----

  predicate FileCommon(db: Tables, tx: Txn) {
    && tx.before.None?
    && (tx.wrote ==> tx.op.Upload?)
    && (forall f :: f in tx.files && tx.files[f].Some? ==> (tx.files[f].value.orphanedAt.None? <==> HasUsages(db, f)))
  }

  predicate DeletePhaseOk(db: Tables, seen: set<FileId>, tx: Txn, f: FileId) {
    && f in seen
    && match tx.phase
       case Begin => Empty(tx) && tx.locks == {}
       case Locking(todo, goal) =>
         Empty(tx) && goal.Inspect? && ((todo == [f] && tx.locks == {}) || (todo == [] && Covered(db, seen, tx, f)))
       case Run(goal) => Empty(tx) && goal.Inspect? && Covered(db, seen, tx, f)
       case Erase(g, rest) => g == f && rest == [] && tx.erased == {f} && tx.files == map[]
       case Sweep(rest) => rest == [] && tx.erased == {f} && tx.files == map[f := None]
       case Ready => tx.erased == {f} && tx.files == map[f := None]
       case Failed => tx.erased == {}
       case _ => false
  }

  /** Prune only ever deletes: it never has a used candidate to mark. */
  predicate PrunePhaseOk(db: Tables, tx: Txn) {
    && (forall f :: f in tx.files ==> tx.files[f].None?)
    && (forall f :: f in tx.erased ==> Candidate(db, tx.op, f))
    && match tx.phase
       case Begin => Empty(tx) && tx.locks == {}
       case Collect(taken) => Empty(tx) && ToSweep(db, tx, taken)
       case Sweep(rest) => ToSweep(db, tx, rest)
       case Erase(g, rest) => g in tx.erased && g !in tx.files && g !in rest && ToSweep(db, tx, rest)
       case Ready => true
       case _ => false
  }

  /** The upload ends with duplicate `d`, locked, and its orphan time renewed if it has one. */
  predicate RefreshedAs(db: Tables, tx: Txn, d: FileId)
    requires tx.op.Upload?
  {
    && d in db.files && FileLock(d) in tx.locks && SameContent(db.files[d], tx.op.row)
    && tx.files == if db.files[d].orphanedAt.None?
      then map[] else map[d := Some(db.files[d].(orphanedAt := Some(tx.op.now)))]
  }

  predicate PendingInsert(tx: Txn)
    requires tx.op.Upload?
  {
    tx.wrote && tx.files == map[tx.op.id := Some(tx.op.row)]
  }

  ghost predicate UploadPhaseOk(db: Tables, seen: set<FileId>, tx: Txn)
    requires tx.op.Upload?
  {
    && NewRow(tx.op)
    && tx.erased == {}
    && (tx.wrote ==> PendingInsert(tx))
    && match tx.phase
       case Begin => Empty(tx) && tx.locks == {}
       case Insert => Empty(tx) && tx.locks == {}
       case Locking(todo, goal) =>
         && Empty(tx) && goal.Refresh? && Duplicates(db, seen, tx.op, goal.duplicate)
         && ((todo == [goal.duplicate] && tx.locks == {}) || (todo == [] && Covered(db, seen, tx, goal.duplicate)))
         && tx.locks <= {FileLock(goal.duplicate)}
       case Run(goal) =>
         && Empty(tx) && goal.Refresh? && Duplicates(db, seen, tx.op, goal.duplicate)
         && Covered(db, seen, tx, goal.duplicate) && tx.locks <= {FileLock(goal.duplicate)}
       case Put => tx.wrote
       case Ready => tx.wrote || exists d :: RefreshedAs(db, tx, d)
       case Failed => true
       case _ => false
  }

  /** `d` was found as a file of the same bytes; its row may be gone since, but never changes content. */
  predicate Duplicates(db: Tables, seen: set<FileId>, op: Operation, d: FileId)
    requires op.Upload?
  {
    d in seen && (d in db.files ==> SameContent(db.files[d], op.row))
  }

  predicate Common(db: Tables, seen: set<FileId>, tx: Txn) {
    LocksReal(db, seen, tx) && WritesGuarded(db, tx) && ErasedOk(db, tx)
  }

  ghost predicate PhaseOk(db: Tables, seen: set<FileId>, tx: Txn) {
    match tx.op
    case WriteArticle(_, _, _, _) => ArticlePhaseOk(db, seen, tx)
    case DeleteFile(f) => FileCommon(db, tx) && DeletePhaseOk(db, seen, tx, f)
    case Prune(_, _) => FileCommon(db, tx) && PrunePhaseOk(db, tx)
    case Upload(_, _, _) => FileCommon(db, tx) && UploadPhaseOk(db, seen, tx)
  }

  ghost predicate TxnInv(db: Tables, seen: set<FileId>, tx: Txn) {
    Common(db, seen, tx) && PhaseOk(db, seen, tx)
  }

  // ---- the whole state ----

  predicate LocksExclusive(s: State) {
    forall t, u :: t in s.txns && u in s.txns && t != u ==> s.txns[t].locks !! s.txns[u].locks
  }

  /** Committed rows and uncommitted inserts never share an object key. */
  predicate InsertsUnique(s: State) {
    && (forall t, f :: t in s.txns && Inserted(s.txns[t]) && f in s.db.files ==>
          s.txns[t].op.row.key != s.db.files[f].key)
    && (forall t, u :: t in s.txns && u in s.txns && t != u && Inserted(s.txns[t]) && Inserted(s.txns[u]) ==>
          s.txns[t].op.row.key != s.txns[u].op.row.key)
  }

  predicate BeingErased(s: State, f: FileId) {
    exists t :: t in s.txns && f in s.txns[t].erased
  }

  /** A row has its object, unless a running transaction has just removed both. */
  predicate ObjectsPresent(s: State) {
    && (forall f :: f in s.db.files ==> s.db.files[f].key in s.objects || BeingErased(s, f))
    && (forall t :: t in s.txns && Inserted(s.txns[t]) && s.txns[t].phase.Ready? ==> s.txns[t].op.row.key in s.objects)
  }

  ghost predicate TxnsOk(s: State) {
    forall t :: t in s.txns ==> TxnInv(s.db, s.seen, s.txns[t])
  }

  ghost predicate Inv(s: State) {
    && Consistent(s.db)
    && s.db.files.Keys <= s.seen
    && LocksExclusive(s)
    && TxnsOk(s)
    && InsertsUnique(s)
    && ObjectsPresent(s)
  }
}
