/** The file service and the article use cases as they run, against `FileOperations`. */
module FileRepository {
  import opened Wrappers
  import opened FileDomain
  import opened Ordering
  import opened FileOperations

  datatype Outcome = Done | FileNotFound | PurposeNotAllowed | FileInUse | ArticleNotFound | Conflict | ClientFailed

  datatype CleanupResult = CleanupResult(scanned: nat, deleted: nat, failed: nat, skippedInUse: nat)

  /** How many of `ids` meet `fate` when they are pruned one after the other. */
  function FateCount(st: Store, ids: seq<FileId>, failing: set<ObjectKey>, fate: Fate): nat
    decreases |ids|
  {
    if ids == [] then 0
    else
      var here := if ids[0] in st.db.files && FateOf(st, ids[0], failing) == fate then 1 else 0;
      here + FateCount(PruneOne(st, ids[0], failing), ids[1..], failing, fate)
  }

  /** Why a reference to `f` is refused. */
  function Refusal(db: Tables, f: FileId): Outcome {
    if f in db.files then PurposeNotAllowed else FileNotFound
  }

  /** `f` is refused and every smaller id is allowed. */
  predicate FirstRefused(db: Tables, ids: set<FileId>, purpose: Purpose, f: FileId) {
    !RefOk(db, f, purpose) && forall g :: g in ids && LexLess(g, f) ==> RefOk(db, g, purpose)
  }

  class Repository {
    var files: map<FileId, FileRow>
    var articles: map<ArticleId, Article>
    var objects: set<ObjectKey>

    function Db(): Tables
      reads this
    {
      Tables(files, articles)
    }

    function Snapshot(): Store
      reads this
    {
      Store(Db(), objects)
    }

    constructor ()
      ensures Snapshot() == Store(Tables(map[], map[]), {})
    {
      files, articles, objects := map[], map[], {};
    }

    /** Accepts exactly the sets whose files all exist with the purpose; otherwise the
        smallest offending id decides the error. */
    method EnsureFilesAllowed(ids: set<FileId>, purpose: Purpose) returns (r: Outcome)
      ensures r.Done? <==> forall f :: f in ids ==> RefOk(Db(), f, purpose)
      ensures !r.Done? ==> exists f :: f in ids && r == Refusal(Db(), f) && FirstRefused(Db(), ids, purpose, f)
    {
      var sorted := SortIds(ids);
      for i := 0 to |sorted|
        invariant forall k :: 0 <= k < i ==> RefOk(Db(), sorted[k], purpose)
      {
        var f := sorted[i];
        assert f in ids;
        if f !in files || files[f].purpose != purpose {
          forall g | g in ids && LexLess(g, f) ensures RefOk(Db(), g, purpose) {
            assert g in sorted;
            var k :| 0 <= k < |sorted| && sorted[k] == g;
            if i < k { LexTransitive(g, f, g); }
            LexIrreflexive(g);
          }
          return if f in files then PurposeNotAllowed else FileNotFound;
        }
      }
      assert forall f :: f in ids ==> f in sorted;
      return Done;
    }

    method EnsureArticleFilesAllowed(article: Article) returns (r: Outcome)
      ensures r.Done? <==> ArticleRefsOk(Db(), article)
      ensures !r.Done? ==> r in {FileNotFound, PurposeNotAllowed}
      ensures article.cover.Some? && !RefOk(Db(), article.cover.value, ArticleCoverImage) ==>
        r == Refusal(Db(), article.cover.value)
    {
      if article.cover.Some? {
        r := EnsureFilesAllowed({article.cover.value}, ArticleCoverImage);
        if !r.Done? { return; }
        assert article.cover.value in {article.cover.value};
      }
      r := EnsureFilesAllowed(article.content, ArticleContentImage);
    }

    method SyncUsages(attached: set<FileId>, detached: set<FileId>, now: Time)
      modifies this`files
      ensures Db() == SyncFileUsages(old(Db()), attached, detached, now)
    {
      if attached != {} {
        files := SetAttached(files, attached);
      }
      assert Db().files == SetAttached(old(files), attached);
      if detached != {} {
        files := SetOrphanedIfUnused(Db(), detached, now);
      } else {
        assert files == SetOrphanedIfUnused(Db(), detached, now);
      }
    }

    /** A duplicate is refreshed; a new file gets its row and then its object, and when the
        object store fails the row is rolled back. */
    method UploadFile(id: FileId, purpose: Purpose, key: ObjectKey, sha: string, clientOk: bool, now: Time)
      returns (r: Outcome, file: FileId)
      modifies this
      ensures Snapshot() == Handle(old(Snapshot()), Request.UploadFile(id, purpose, key, sha, clientOk), now)
      ensures r.Done? ==> file in files && files[file].purpose == purpose && files[file].sha == sha
      ensures r.Done? ==>
        file == (if old(FindDuplicate(Db(), key.namespace, purpose, sha)).None? then id
                 else old(FindDuplicate(Db(), key.namespace, purpose, sha)).value)
      ensures !r.Done? ==> r in {Conflict, ClientFailed} && Snapshot() == old(Snapshot())
      ensures !r.Done? ==> old(FindDuplicate(Db(), key.namespace, purpose, sha)).None?
      ensures r.ClientFailed? ==> !clientOk && id !in old(files) && !KeyTaken(old(Db()), key)
      ensures r.Conflict? ==> id in old(files) || KeyTaken(old(Db()), key)
    {
      DuplicateIsRow(Db(), key.namespace, purpose, sha);
      var duplicate := FindDuplicate(Db(), key.namespace, purpose, sha);
      if duplicate.Some? {
        file := duplicate.value;
        if files[file].orphanedAt.Some? {
          files := files[file := files[file].(orphanedAt := Some(now))];
        }
        return Done, file;
      }
      if id in files || KeyTaken(Db(), key) {
        return Conflict, id;
      }
      var kept := files;
      files := files[id := FileRow(purpose, key, sha, now, Some(now))];
      if !clientOk {
        files := kept;
        return ClientFailed, id;
      }
      objects := objects + {key};
      return Done, id;
    }

    method DeleteFile(f: FileId, clientOk: bool) returns (r: Outcome)
      modifies this
      ensures Snapshot() == Handle(old(Snapshot()), RemoveFile(f, clientOk), 0)
      ensures r == if old(HasUsages(Db(), f)) then FileInUse
                   else if f !in old(files) then FileNotFound else if clientOk then Done else ClientFailed
      ensures r.Done? <==> f in old(files) && f !in files
    {
      if HasUsages(Db(), f) { return FileInUse; }
      if f !in files { return FileNotFound; }
      if !clientOk { return ClientFailed; }
      objects := objects - {files[f].key};
      files := files - {f};
      return Done;
    }

    method CreateArticle(a: ArticleId, params: ArticleParams, now: Time) returns (r: Outcome)
      modifies this
      ensures Snapshot() == Handle(old(Snapshot()), Request.CreateArticle(a, params), now)
      ensures r.Done? <==> a !in old(articles) && FormAllowed(old(Db()), params)
      ensures r.Done? ==> a in articles && IsArticleOf(articles[a], params)
      ensures r.Conflict? <==> a in old(articles) && FormAllowed(old(Db()), params)
      ensures !r.Done? ==> r in {FileNotFound, PurposeNotAllowed, Conflict} && Snapshot() == old(Snapshot())
    {
      hide FormAllowed;
      hide IsArticleOf;
      FormIsArticle(Db(), params);
      var article := ToArticle(params);
      r := EnsureArticleFilesAllowed(article);
      if !r.Done? { return; }
      if a in articles { return Conflict; }
      articles := articles[a := article];
      SyncUsages(Managed(article), {}, now);
    }

    method UpdateArticle(a: ArticleId, params: ArticleParams, now: Time) returns (r: Outcome)
      modifies this
      ensures Snapshot() == Handle(old(Snapshot()), Request.UpdateArticle(a, params), now)
      ensures r.Done? <==> a in old(articles) && FormAllowed(old(Db()), params)
      ensures r.Done? ==> a in articles && IsArticleOf(articles[a], params)
      ensures r.ArticleNotFound? <==> a !in old(articles)
      ensures !r.Done? ==> r in {FileNotFound, PurposeNotAllowed, ArticleNotFound} && Snapshot() == old(Snapshot())
    {
      hide FormAllowed;
      hide IsArticleOf;
      FormIsArticle(Db(), params);
      if a !in articles { return ArticleNotFound; }
      var existing, updated := articles[a], ToArticle(params);
      r := EnsureArticleFilesAllowed(updated);
      if !r.Done? { return; }
      articles := articles[a := updated];
      SyncUsages(Managed(updated), Managed(existing) - Managed(updated), now);
    }

    method DeleteArticle(a: ArticleId, now: Time) returns (r: Outcome)
      modifies this
      ensures Snapshot() == Handle(old(Snapshot()), Request.DeleteArticle(a), now)
      ensures r == if a in old(articles) then Done else ArticleNotFound
    {
      if a !in articles { return ArticleNotFound; }
      var existing := articles[a];
      articles := articles - {a};
      assert Managed(existing) - {} == Managed(existing);
      SyncUsages({}, Managed(existing), now);
      return Done;
    }

    /** One cleanup pass; its counters add up to the candidates it scanned. */
    method Prune(namespace: string, cutoff: Time, limit: nat, failing: set<ObjectKey>) returns (r: CleanupResult)
      modifies this
      ensures Snapshot() == Handle(old(Snapshot()), PruneFiles(namespace, cutoff, limit, failing), 0)
      ensures r.scanned == |Candidates(old(Db()), namespace, cutoff, limit)| <= limit
      ensures r.scanned == r.deleted + r.failed + r.skippedInUse
      ensures r.deleted == FateCount(old(Snapshot()), Candidates(old(Db()), namespace, cutoff, limit), failing, Deleted)
      ensures r.failed
        == FateCount(old(Snapshot()), Candidates(old(Db()), namespace, cutoff, limit), failing, DeleteFailed)
      ensures r.deleted == |old(files)| - |files| && r.skippedInUse == 0
    {
      hide Handle;
      hide PruneProgress;
      hide Candidates;
      hide HasUsages;
      hide FateCount;
      var candidates := Candidates(Db(), namespace, cutoff, limit);
      CandidatesPresent(Db(), namespace, cutoff, limit);
      var deleted, failed, skipped := 0, 0, 0;
      ghost var start := Snapshot();
      PruneStarts(start, candidates, failing);
      for i := 0 to |candidates|
        invariant deleted + failed + skipped == i
        invariant PresentDistinct(files, candidates[i..])
        invariant PruneProgress(start, candidates, failing, Snapshot(), candidates[i..], deleted, failed, skipped)
      {
        var f := candidates[i];
        PresentTail(files, candidates[i..]);
        assert candidates[i..][1..] == candidates[i + 1..];
        PruneContinues(start, candidates, failing, Snapshot(), candidates[i..], deleted, failed, skipped);
        ghost var before := Snapshot();
        if HasUsages(Db(), f) {
          files := SetAttached(files, {f});
          skipped := skipped + 1;
        } else if files[f].key in failing {
          failed := failed + 1;
        } else {
          objects := objects - {files[f].key};
          files := files - {f};
          deleted := deleted + 1;
        }
        assert Snapshot() == PruneOne(before, f, failing);
      }
      PruneEnds(start, namespace, cutoff, limit, failing, Snapshot(), candidates[|candidates|..], deleted, failed,
                skipped);
      return CleanupResult(|candidates|, deleted, failed, skipped);
    }
  }

  /** What is left to do from `st` on, and the counts so far, add up to the whole sweep. */
  predicate PruneProgress(start: Store, ids: seq<FileId>, failing: set<ObjectKey>, st: Store, rest: seq<FileId>,
                          deleted: nat, failed: nat, skipped: nat)
  {
    && PruneAll(start, ids, failing) == PruneAll(st, rest, failing)
    && FateCount(start, ids, failing, Deleted) == deleted + FateCount(st, rest, failing, Deleted)
    && FateCount(start, ids, failing, DeleteFailed) == failed + FateCount(st, rest, failing, DeleteFailed)
    && FateCount(start, ids, failing, StillUsed) == skipped + FateCount(st, rest, failing, StillUsed)
  }

  lemma PruneStarts(start: Store, ids: seq<FileId>, failing: set<ObjectKey>)
    ensures PruneProgress(start, ids, failing, start, ids[0..], 0, 0, 0)
  {
    assert ids[0..] == ids;
  }

  lemma PruneContinues(start: Store, ids: seq<FileId>, failing: set<ObjectKey>, st: Store, rest: seq<FileId>,
                       deleted: nat, failed: nat, skipped: nat)
    requires PruneProgress(start, ids, failing, st, rest, deleted, failed, skipped) && rest != []
    requires rest[0] in st.db.files
    ensures
      var st', fate := PruneOne(st, rest[0], failing), FateOf(st, rest[0], failing);
      PruneProgress(start, ids, failing, st', rest[1..], deleted + (if fate.Deleted? then 1 else 0),
                    failed + (if fate.DeleteFailed? then 1 else 0), skipped + (if fate.StillUsed? then 1 else 0))
  {
  }

  lemma PruneEnds(start: Store, namespace: string, cutoff: Time, limit: nat, failing: set<ObjectKey>, st: Store,
                  rest: seq<FileId>, deleted: nat, failed: nat, skipped: nat)
    requires rest == []
    requires
      var ids := Candidates(start.db, namespace, cutoff, limit);
      PruneProgress(start, ids, failing, st, rest, deleted, failed, skipped)
    ensures st == Handle(start, PruneFiles(namespace, cutoff, limit, failing), 0)
    ensures skipped == 0 && deleted == |start.db.files| - |st.db.files|
    ensures deleted == FateCount(start, Candidates(start.db, namespace, cutoff, limit), failing, Deleted)
    ensures failed == FateCount(start, Candidates(start.db, namespace, cutoff, limit), failing, DeleteFailed)
  {
    hide Candidates;
    hide HasUsages;
    hide FateOf;
    hide PruneOne;
    CandidatesUnused(start.db, namespace, cutoff, limit);
    UnusedCandidates(start, Candidates(start.db, namespace, cutoff, limit), failing);
  }

  lemma CandidatesUnused(db: Tables, namespace: string, cutoff: Time, limit: nat)
    ensures forall f :: f in Candidates(db, namespace, cutoff, limit) ==> !HasUsages(db, f)
  {
    hide Candidates;
    hide HasUsages;
    CandidatesEligible(db, namespace, cutoff, limit);
  }

  /** Candidates that no article uses are deleted or fail; each deletion is one row less. */
  lemma {:induction false} UnusedCandidates(st: Store, ids: seq<FileId>, failing: set<ObjectKey>)
    requires forall f :: f in ids ==> !HasUsages(st.db, f)
    ensures FateCount(st, ids, failing, StillUsed) == 0
    ensures FateCount(st, ids, failing, Deleted) == |st.db.files| - |PruneAll(st, ids, failing).db.files|
    decreases |ids|
  {
    if ids != [] {
      var next := PruneOne(st, ids[0], failing);
      assert ids[0] in ids;
      assert (st.db.files - {ids[0]}).Keys == st.db.files.Keys - {ids[0]};
      forall f | f in ids[1..] ensures !HasUsages(next.db, f) {
        SameArticlesSameUsages(st.db, next.db, f);
      }
      UnusedCandidates(next, ids[1..], failing);
    }
  }

  predicate PresentDistinct(files: map<FileId, FileRow>, ids: seq<FileId>) {
    && (forall f :: f in ids ==> f in files)
    && (forall i, j :: 0 <= i < j < |ids| ==> ids[i] != ids[j])
  }

  lemma PresentTail(files: map<FileId, FileRow>, ids: seq<FileId>)
    requires PresentDistinct(files, ids) && ids != []
    ensures ids[0] in files && PresentDistinct(files - {ids[0]}, ids[1..])
  {
    assert forall f :: f in ids[1..] ==> f in ids && f != ids[0];
  }

  lemma CandidatesPresent(db: Tables, namespace: string, cutoff: Time, limit: nat)
    ensures PresentDistinct(db.files, Candidates(db, namespace, cutoff, limit))
    ensures |Candidates(db, namespace, cutoff, limit)| <= limit
  {
    CandidatesEligible(db, namespace, cutoff, limit);
    var key := EligibleKeys(db, namespace, cutoff);
    ListingIsListing(key);
    forall i, j | 0 <= i < j < |Listing(key)| ensures Listing(key)[i] != Listing(key)[j] {
      ListingDistinct(key, Listing(key), i, j);
    }
  }
}
