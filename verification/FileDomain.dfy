/** Managed files, the articles that use them, and what a consistent database means. */
module FileDomain {
  import opened Wrappers

  type FileId = string
  type ArticleId = string
  type Time = int

  datatype Purpose = ArticleContentImage | ArticleCoverImage | Attachment

  /** Where the bytes of a file live in the object store. */
  datatype ObjectKey = ObjectKey(namespace: string, path: string)

  datatype FileRow = FileRow(
    purpose: Purpose,
    key: ObjectKey,
    sha: string,
    createdAt: Time,
    orphanedAt: Option<Time>
  )

  /** The file references of an article: one optional cover and a set of content files. */
  datatype Article = Article(cover: Option<FileId>, content: set<FileId>)

  datatype Tables = Tables(files: map<FileId, FileRow>, articles: map<ArticleId, Article>)

  function Managed(a: Article): set<FileId> {
    if a.cover.Some? then a.content + {a.cover.value} else a.content
  }

  function ManagedOf(a: Option<Article>): set<FileId> {
    if a.Some? then Managed(a.value) else {}
  }

  predicate Uses(db: Tables, a: ArticleId, f: FileId) {
    a in db.articles && f in Managed(db.articles[a])
  }

  predicate HasUsages(db: Tables, f: FileId) {
    exists a :: a in db.articles && Uses(db, a, f)
  }

  /** `orphaned_at` is null exactly for the files some article uses. */
  predicate OrphanMarksExact(db: Tables) {
    forall f :: f in db.files ==> (db.files[f].orphanedAt.None? <==> HasUsages(db, f))
  }

  predicate RefOk(db: Tables, f: FileId, purpose: Purpose) {
    f in db.files && db.files[f].purpose == purpose
  }

  predicate ArticleRefsOk(db: Tables, a: Article) {
    && (a.cover.Some? ==> RefOk(db, a.cover.value, ArticleCoverImage))
    && (forall f :: f in a.content ==> RefOk(db, f, ArticleContentImage))
  }

  /** Every article reference names an existing file of the right purpose. */
  predicate ReferencesValid(db: Tables) {
    forall a :: a in db.articles ==> ArticleRefsOk(db, db.articles[a])
  }

  /** The unique constraint on (namespace, relative_path). */
  predicate ObjectsUnique(db: Tables) {
    forall f, g :: f in db.files && g in db.files && f != g ==> db.files[f].key != db.files[g].key
  }

  predicate Consistent(db: Tables) {
    OrphanMarksExact(db) && ReferencesValid(db) && ObjectsUnique(db)
  }
}
