/** The file and article requests one at a time: what each does to the rows and the
    object store. `FileRepository` implements these; `FileHistory` reasons about runs. */
module FileOperations {
  import opened Wrappers
  import opened FileDomain
  import opened Ordering
  import Markdown

  datatype Store = Store(db: Tables, objects: set<ObjectKey>)

  /** The parts of an article form that decide which files it uses. */
  datatype ArticleParams = ArticleParams(cover: Option<FileId>, contentRu: string, contentEn: string)

  datatype Request =
    | UploadFile(id: FileId, purpose: Purpose, key: ObjectKey, sha: string, clientOk: bool)
    | RemoveFile(file: FileId, clientOk: bool)
    | CreateArticle(article: ArticleId, params: ArticleParams)
    | UpdateArticle(article: ArticleId, params: ArticleParams)
    | DeleteArticle(article: ArticleId)
    | PruneFiles(namespace: string, cutoff: Time, limit: nat, failing: set<ObjectKey>)

  function ToArticle(p: ArticleParams): Article {
    Article(p.cover, Markdown.ExtractFileIds(p.contentRu) + Markdown.ExtractFileIds(p.contentEn))
  }

  /** Some marker of the text names `f`. */
  ghost predicate InText(text: string, f: FileId) {
    exists i :: 0 <= i < |text| && Markdown.Captured(text, i) == Some(f)
  }

  ghost predicate InContent(p: ArticleParams, f: FileId) {
    InText(p.contentRu, f) || InText(p.contentEn, f)
  }

  /** The article has the cover of the form and the files that its two texts name. */
  ghost predicate IsArticleOf(article: Article, p: ArticleParams) {
    article.cover == p.cover && forall f :: f in article.content <==> InContent(p, f)
  }

  /** The cover of the form is a cover image and every file its texts name is a content image. */
  ghost predicate FormAllowed(db: Tables, p: ArticleParams) {
    && (p.cover.Some? ==> RefOk(db, p.cover.value, ArticleCoverImage))
    && forall f :: InContent(p, f) ==> RefOk(db, f, ArticleContentImage)
  }

  lemma ToArticleOf(p: ArticleParams)
    ensures IsArticleOf(ToArticle(p), p)
  {
    forall f ensures f in ToArticle(p).content <==> InContent(p, f) {
      Markdown.ExtractIsAllMarkers(p.contentRu, f);
      Markdown.ExtractIsAllMarkers(p.contentEn, f);
    }
  }

  lemma FormIsArticle(db: Tables, p: ArticleParams)
    ensures IsArticleOf(ToArticle(p), p)
    ensures ArticleRefsOk(db, ToArticle(p)) <==> FormAllowed(db, p)
  {
    hide ToArticle;
    hide InContent;
    ToArticleOf(p);
  }

  // ---- statements ----

  function SetAttached(files: map<FileId, FileRow>, ids: set<FileId>): map<FileId, FileRow> {
    map f | f in files :: if f in ids then files[f].(orphanedAt := None) else files[f]
  }

  function SetOrphanedIfUnused(db: Tables, ids: set<FileId>, now: Time): map<FileId, FileRow> {
    map f | f in db.files ::
      if f in ids && !HasUsages(db, f) then db.files[f].(orphanedAt := Some(now)) else db.files[f]
  }

  function SyncFileUsages(db: Tables, attached: set<FileId>, detached: set<FileId>, now: Time): Tables {
    var linked := db.(files := SetAttached(db.files, attached));
    linked.(files := SetOrphanedIfUnused(linked, detached, now))
  }

  /** Write (or, with None, delete) article `a` and move the orphan marks along. */
  function SaveArticle(db: Tables, a: ArticleId, after: Option<Article>, now: Time): Tables {
    var before := if a in db.articles then Managed(db.articles[a]) else {};
    var articles := if after.Some? then db.articles[a := after.value] else db.articles - {a};
    SyncFileUsages(db.(articles := articles), ManagedOf(after), before - ManagedOf(after), now)
  }

  // ---- upload ----

  /** Rows of the same bytes, by creation time and id. */
  function Duplicates(db: Tables, namespace: string, purpose: Purpose, sha: string): seq<FileId> {
    Listing(map f | f in db.files && db.files[f].key.namespace == namespace && db.files[f].purpose == purpose
                    && db.files[f].sha == sha :: db.files[f].createdAt)
  }

  function FindDuplicate(db: Tables, namespace: string, purpose: Purpose, sha: string): Option<FileId> {
    var ids := Duplicates(db, namespace, purpose, sha);
    if ids == [] then None else Some(ids[0])
  }

  lemma DuplicateIsRow(db: Tables, namespace: string, purpose: Purpose, sha: string)
    ensures FindDuplicate(db, namespace, purpose, sha).Some? ==>
      var d := FindDuplicate(db, namespace, purpose, sha).value;
      d in db.files && db.files[d].key.namespace == namespace && db.files[d].purpose == purpose
        && db.files[d].sha == sha
  {
    var key := map f | f in db.files && db.files[f].key.namespace == namespace && db.files[f].purpose == purpose
                       && db.files[f].sha == sha :: db.files[f].createdAt;
    ListingIsListing(key);
    if Listing(key) != [] { assert Listing(key)[0] in Listing(key); }
  }

  function Refresh(db: Tables, f: FileId, now: Time): Tables
    requires f in db.files
  {
    if db.files[f].orphanedAt.None? then db
    else db.(files := db.files[f := db.files[f].(orphanedAt := Some(now))])
  }

  predicate KeyTaken(db: Tables, key: ObjectKey) {
    exists f :: f in db.files && db.files[f].key == key
  }

  function Upload(st: Store, id: FileId, purpose: Purpose, key: ObjectKey, sha: string, now: Time,
                  clientOk: bool): Store {
    var d := FindDuplicate(st.db, key.namespace, purpose, sha);
    DuplicateIsRow(st.db, key.namespace, purpose, sha);
    if d.Some? then st.(db := Refresh(st.db, d.value, now))
    else if id in st.db.files || KeyTaken(st.db, key) || !clientOk then st
    else Store(st.db.(files := st.db.files[id := FileRow(purpose, key, sha, now, Some(now))]), st.objects + {key})
  }

  // ---- deletion and prune ----

  function Erase(st: Store, f: FileId): Store
    requires f in st.db.files
  {
    Store(st.db.(files := st.db.files - {f}), st.objects - {st.db.files[f].key})
  }

  function Remove(st: Store, f: FileId, clientOk: bool): Store {
    if f in st.db.files && !HasUsages(st.db, f) && clientOk then Erase(st, f) else st
  }

  predicate Eligible(db: Tables, namespace: string, cutoff: Time, f: FileId) {
    && f in db.files && db.files[f].key.namespace == namespace
    && db.files[f].orphanedAt.Some? && db.files[f].orphanedAt.value < cutoff && !HasUsages(db, f)
  }

  function EligibleKeys(db: Tables, namespace: string, cutoff: Time): map<FileId, Time> {
    map f | f in db.files && Eligible(db, namespace, cutoff, f) :: db.files[f].orphanedAt.value
  }

  /** All files prune may delete, in (orphaned_at, id) order. */
  function Backlog(db: Tables, namespace: string, cutoff: Time): seq<FileId> {
    Listing(EligibleKeys(db, namespace, cutoff))
  }

  function Candidates(db: Tables, namespace: string, cutoff: Time, limit: nat): seq<FileId> {
    var ids := Backlog(db, namespace, cutoff);
    if |ids| <= limit then ids else ids[..limit]
  }

  datatype Fate = Deleted | DeleteFailed | StillUsed

  function FateOf(st: Store, f: FileId, failing: set<ObjectKey>): Fate
    requires f in st.db.files
  {
    if HasUsages(st.db, f) then StillUsed else if st.db.files[f].key in failing then DeleteFailed else Deleted
  }

  function PruneOne(st: Store, f: FileId, failing: set<ObjectKey>): Store {
    if f !in st.db.files then st
    else match FateOf(st, f, failing)
      case StillUsed => st.(db := st.db.(files := SetAttached(st.db.files, {f})))
      case DeleteFailed => st
      case Deleted => Erase(st, f)
  }

  function PruneAll(st: Store, ids: seq<FileId>, failing: set<ObjectKey>): Store
    decreases |ids|
  {
    if ids == [] then st else PruneAll(PruneOne(st, ids[0], failing), ids[1..], failing)
  }

  function Prune(st: Store, namespace: string, cutoff: Time, limit: nat, failing: set<ObjectKey>): Store {
    PruneAll(st, Candidates(st.db, namespace, cutoff, limit), failing)
  }

  // ---- one request ----

  function Handle(st: Store, r: Request, now: Time): Store {
    match r
    case UploadFile(id, purpose, key, sha, ok) => Upload(st, id, purpose, key, sha, now, ok)
    case RemoveFile(f, ok) => Remove(st, f, ok)
    case CreateArticle(a, p) =>
      if a in st.db.articles || !ArticleRefsOk(st.db, ToArticle(p)) then st
      else st.(db := SaveArticle(st.db, a, Some(ToArticle(p)), now))
    case UpdateArticle(a, p) =>
      if a !in st.db.articles || !ArticleRefsOk(st.db, ToArticle(p)) then st
      else st.(db := SaveArticle(st.db, a, Some(ToArticle(p)), now))
    case DeleteArticle(a) =>
      if a !in st.db.articles then st else st.(db := SaveArticle(st.db, a, None, now))
    case PruneFiles(ns, cutoff, limit, failing) => Prune(st, ns, cutoff, limit, failing)
  }

  // ---- what every request keeps ----

  predicate WellFormed(st: Store) {
    Consistent(st.db) && forall f :: f in st.db.files ==> st.db.files[f].key in st.objects
  }

  lemma SameArticlesSameUsages(db: Tables, db': Tables, f: FileId)
    requires db.articles == db'.articles
    ensures HasUsages(db, f) <==> HasUsages(db', f)
  {
    forall a | a in db.articles ensures Uses(db, a, f) <==> Uses(db', a, f) {}
  }

  lemma SaveArticleMarks(db: Tables, a: ArticleId, after: Option<Article>, now: Time)
    requires OrphanMarksExact(db)
    ensures OrphanMarksExact(SaveArticle(db, a, after, now))
  {
    var db' := SaveArticle(db, a, after, now);
    var before := if a in db.articles then Managed(db.articles[a]) else {};
    forall f | f in db'.files ensures db'.files[f].orphanedAt.None? <==> HasUsages(db', f) {
      var linked := Tables(SetAttached(db.files, ManagedOf(after)), db'.articles);
      SameArticlesSameUsages(linked, db', f);
      if f in ManagedOf(after) {
        assert Uses(db', a, f);
      } else if f in before {
        assert Uses(db, a, f);
      } else {
        forall b ensures Uses(db, b, f) <==> Uses(db', b, f) {}
        assert HasUsages(db, f) <==> HasUsages(db', f) by {
          if HasUsages(db, f) { var b :| b in db.articles && Uses(db, b, f); assert Uses(db', b, f); }
          if HasUsages(db', f) { var b :| b in db'.articles && Uses(db', b, f); assert Uses(db, b, f); }
        }
      }
    }
  }

  /** Saving an article touches nothing of a row but its orphan time. */
  lemma SavedRows(db: Tables, a: ArticleId, after: Option<Article>, now: Time)
    ensures
      var files := SaveArticle(db, a, after, now).files;
      && files.Keys == db.files.Keys
      && forall f :: f in db.files ==> files[f] == db.files[f].(orphanedAt := files[f].orphanedAt)
    ensures SaveArticle(db, a, after, now).articles
         == if after.Some? then db.articles[a := after.value] else db.articles - {a}
  {
    hide HasUsages;
  }

  lemma SaveArticleKeeps(db: Tables, a: ArticleId, after: Option<Article>, now: Time)
    requires Consistent(db) && (after.Some? ==> ArticleRefsOk(db, after.value))
    ensures Consistent(SaveArticle(db, a, after, now))
  {
    hide SaveArticle;
    hide OrphanMarksExact;
    SaveArticleMarks(db, a, after, now);
    SavedRows(db, a, after, now);
    var db' := SaveArticle(db, a, after, now);
    forall b | b in db'.articles ensures ArticleRefsOk(db', db'.articles[b]) {
      assert ArticleRefsOk(db, db'.articles[b]);
    }
  }

  lemma EraseKeeps(st: Store, f: FileId)
    requires WellFormed(st) && f in st.db.files && !HasUsages(st.db, f)
    ensures WellFormed(Erase(st, f))
  {
    var db, db' := st.db, Erase(st, f).db;
    forall g | g in db'.files ensures db'.files[g].orphanedAt.None? <==> HasUsages(db', g) {
      SameArticlesSameUsages(db, db', g);
    }
    forall a | a in db'.articles ensures ArticleRefsOk(db', db'.articles[a]) {
      assert ArticleRefsOk(db, db.articles[a]);
      assert !Uses(db, a, f);
    }
  }

  lemma NewRowKeeps(st: Store, id: FileId, row: FileRow)
    requires WellFormed(st) && id !in st.db.files && !KeyTaken(st.db, row.key) && row.orphanedAt.Some?
    ensures WellFormed(Store(st.db.(files := st.db.files[id := row]), st.objects + {row.key}))
  {
    var db, db' := st.db, st.db.(files := st.db.files[id := row]);
    forall a | a in db'.articles ensures ArticleRefsOk(db', db'.articles[a]) && !Uses(db, a, id) {
      assert ArticleRefsOk(db, db.articles[a]);
    }
    forall f | f in db'.files ensures db'.files[f].orphanedAt.None? <==> HasUsages(db', f) {
      SameArticlesSameUsages(db, db', f);
    }
  }

  lemma RefreshKeeps(st: Store, f: FileId, now: Time)
    requires WellFormed(st) && f in st.db.files
    ensures WellFormed(st.(db := Refresh(st.db, f, now)))
  {
    var db, db' := st.db, Refresh(st.db, f, now);
    forall a | a in db'.articles ensures ArticleRefsOk(db', db'.articles[a]) {
      assert ArticleRefsOk(db, db.articles[a]);
    }
    forall g | g in db'.files ensures db'.files[g].orphanedAt.None? <==> HasUsages(db', g) {
      SameArticlesSameUsages(db, db', g);
    }
  }

  lemma UploadKeeps(st: Store, id: FileId, purpose: Purpose, key: ObjectKey, sha: string, now: Time, clientOk: bool)
    requires WellFormed(st)
    ensures WellFormed(Upload(st, id, purpose, key, sha, now, clientOk))
  {
    hide WellFormed;
    hide FindDuplicate;
    hide Refresh;
    hide KeyTaken;
    var d := FindDuplicate(st.db, key.namespace, purpose, sha);
    DuplicateIsRow(st.db, key.namespace, purpose, sha);
    if d.Some? {
      RefreshKeeps(st, d.value, now);
    } else if id !in st.db.files && !KeyTaken(st.db, key) {
      NewRowKeeps(st, id, FileRow(purpose, key, sha, now, Some(now)));
    }
  }

  lemma {:induction false} PruneAllKeeps(st: Store, ids: seq<FileId>, failing: set<ObjectKey>)
    requires WellFormed(st) && (forall f :: f in ids ==> f in st.db.files ==> !HasUsages(st.db, f))
    ensures WellFormed(PruneAll(st, ids, failing))
    decreases |ids|
  {
    if ids != [] {
      var next := PruneOne(st, ids[0], failing);
      assert ids[0] in ids;
      if ids[0] in st.db.files { EraseKeeps(st, ids[0]); }
      forall f | f in ids[1..] && f in next.db.files ensures !HasUsages(next.db, f) {
        assert f in ids;
        SameArticlesSameUsages(st.db, next.db, f);
      }
      PruneAllKeeps(next, ids[1..], failing);
    }
  }

  lemma CandidatesEligible(db: Tables, namespace: string, cutoff: Time, limit: nat)
    ensures forall f :: f in Candidates(db, namespace, cutoff, limit) ==> Eligible(db, namespace, cutoff, f)
  {
    ListingIsListing(EligibleKeys(db, namespace, cutoff));
    assert forall f :: f in Backlog(db, namespace, cutoff) ==> f in EligibleKeys(db, namespace, cutoff);
  }

  lemma HandleKeeps(st: Store, r: Request, now: Time)
    requires WellFormed(st)
    ensures WellFormed(Handle(st, r, now))
  {
    match r
    case UploadFile(id, purpose, key, sha, ok) => UploadKeeps(st, id, purpose, key, sha, now, ok);
    case RemoveFile(f, ok) => if f in st.db.files && !HasUsages(st.db, f) { EraseKeeps(st, f); }
    case CreateArticle(a, p) =>
      if a !in st.db.articles && ArticleRefsOk(st.db, ToArticle(p)) {
        SaveArticleKeeps(st.db, a, Some(ToArticle(p)), now);
      }
    case UpdateArticle(a, p) =>
      if ArticleRefsOk(st.db, ToArticle(p)) { SaveArticleKeeps(st.db, a, Some(ToArticle(p)), now); }
    case DeleteArticle(a) => SaveArticleKeeps(st.db, a, None, now);
    case PruneFiles(ns, cutoff, limit, failing) =>
      CandidatesEligible(st.db, ns, cutoff, limit);
      PruneAllKeeps(st, Candidates(st.db, ns, cutoff, limit), failing);
  }
}
