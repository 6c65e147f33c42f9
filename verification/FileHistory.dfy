/** Whole sequential runs: retention of orphaned files and draining of the backlog. */
module FileHistory {
  import opened Wrappers
  import opened FileDomain
  import opened Ordering
  import opened FileOperations
  import Markdown

  /** `states[i + 1]` is what request `i`, served at `times[i]`, leaves behind. */
  datatype History = History(states: seq<Store>, requests: seq<Request>, times: seq<Time>)

  function EmptyStore(): Store {
    Store(Tables(map[], map[]), {})
  }

  ghost predicate IsHistory(h: History) {
    && |h.states| == |h.requests| + 1 == |h.times| + 1
    && h.states[0] == EmptyStore()
    && (forall i :: 0 <= i < |h.requests| ==> h.states[i + 1] == Handle(h.states[i], h.requests[i], h.times[i]))
    && (forall i, j :: 0 <= i <= j < |h.times| ==> h.times[i] <= h.times[j])
  }

  lemma {:induction false} HistoryWellFormed(h: History, i: nat)
    requires IsHistory(h) && i < |h.states|
    ensures WellFormed(h.states[i])
  {
    if i > 0 {
      HistoryWellFormed(h, i - 1);
      HandleKeeps(h.states[i - 1], h.requests[i - 1], h.times[i - 1]);
      assert h.states[(i - 1) + 1] == Handle(h.states[i - 1], h.requests[i - 1], h.times[i - 1]);
    }
  }

  // ---- retention ----

  /** The upload `r` finds `f` as an existing file of the same bytes. */
  predicate IsReupload(st: Store, r: Request, f: FileId) {
    r.UploadFile? && FindDuplicate(st.db, r.key.namespace, r.purpose, r.sha) == Some(f)
  }

  predicate OrphanedAs(st: Store, f: FileId, t: Time) {
    f in st.db.files && st.db.files[f].orphanedAt == Some(t) && !HasUsages(st.db, f)
  }

  lemma {:induction false} PruneAllMarks(st: Store, ids: seq<FileId>, failing: set<ObjectKey>, f: FileId)
    requires f in PruneAll(st, ids, failing).db.files && PruneAll(st, ids, failing).db.files[f].orphanedAt.Some?
    ensures f in st.db.files && st.db.files[f] == PruneAll(st, ids, failing).db.files[f]
    decreases |ids|
  {
    if ids != [] {
      PruneAllMarks(PruneOne(st, ids[0], failing), ids[1..], failing, f);
    }
  }

  /** A request leaves an orphan time alone or sets it to the present; a re-upload sets it. */
  lemma RequestSetsNow(st: Store, r: Request, now: Time, f: FileId)
    requires f in Handle(st, r, now).db.files && Handle(st, r, now).db.files[f].orphanedAt.Some?
    ensures Handle(st, r, now).db.files[f].orphanedAt == Some(now)
      || (f in st.db.files && Handle(st, r, now).db.files[f].orphanedAt == st.db.files[f].orphanedAt)
    ensures IsReupload(st, r, f) ==> Handle(st, r, now).db.files[f].orphanedAt == Some(now)
  {
    match r
    case UploadFile(id, purpose, key, sha, _) => DuplicateIsRow(st.db, key.namespace, purpose, sha);
    case PruneFiles(ns, cutoff, limit, failing) =>
      PruneAllMarks(st, Candidates(st.db, ns, cutoff, limit), failing, f);
    case _ =>
  }

  /** From the request that last set the orphan time on, the file stayed unused with that
      time and was not uploaded again. */
  lemma {:induction false} OrphanedSince(h: History, k: nat, f: FileId, t: Time) returns (since: nat)
    requires IsHistory(h) && k < |h.states| && f in h.states[k].db.files
    requires h.states[k].db.files[f].orphanedAt == Some(t)
    ensures since < k && h.times[since] == t
    ensures forall i :: since < i <= k ==> OrphanedAs(h.states[i], f, t)
    ensures forall i :: since < i < k ==> !IsReupload(h.states[i], h.requests[i], f)
  {
    hide Handle;
    hide HasUsages;
    HistoryWellFormed(h, k);
    assert k > 0;
    var st, r, now := h.states[k - 1], h.requests[k - 1], h.times[k - 1];
    assert h.states[(k - 1) + 1] == Handle(st, r, now);
    RequestSetsNow(st, r, now, f);
    if t == now {
      since := k - 1;
    } else {
      since := OrphanedSince(h, k - 1, f, t);
    }
  }

  lemma {:induction false} PruneAllRemoves(st: Store, ids: seq<FileId>, failing: set<ObjectKey>, f: FileId)
    requires f in st.db.files && f !in PruneAll(st, ids, failing).db.files
    ensures f in ids
    decreases |ids|
  {
    if ids != [] && f != ids[0] {
      PruneAllRemoves(PruneOne(st, ids[0], failing), ids[1..], failing, f);
    }
  }

  /** Every file prune deletes carries an orphan time before the cutoff; some earlier request set
      it, and at every moment since, the file was unused and was not uploaded again. */
  lemma PrunedFilesWereRetained(h: History, k: nat, f: FileId) returns (t: Time, since: nat)
    requires IsHistory(h) && k < |h.requests| && h.requests[k].PruneFiles?
    requires f in h.states[k].db.files && f !in h.states[k + 1].db.files
    ensures h.states[k].db.files[f].orphanedAt == Some(t) && t < h.requests[k].cutoff
    ensures since < k && h.times[since] == t
    ensures forall i :: since < i <= k ==> OrphanedAs(h.states[i], f, t)
    ensures forall i :: since < i < k ==> !IsReupload(h.states[i], h.requests[i], f)
    ensures forall i :: 0 <= i < k && h.times[i] > t ==> since < i
  {
    var st, r := h.states[k], h.requests[k];
    assert h.states[k + 1] == Handle(st, r, h.times[k]);
    var ids := Candidates(st.db, r.namespace, r.cutoff, r.limit);
    CandidatesEligible(st.db, r.namespace, r.cutoff, r.limit);
    PruneAllRemoves(st, ids, r.failing, f);
    t := st.db.files[f].orphanedAt.value;
    since := OrphanedSince(h, k, f, t);
  }

  /** The row of `f` is there, with its key, and so is the object. */
  predicate KeepsFile(st: Store, f: FileId, key: ObjectKey) {
    f in st.db.files && st.db.files[f].key == key && key in st.objects
  }

  lemma {:induction false} PruneAllKeys(st: Store, ids: seq<FileId>, failing: set<ObjectKey>, f: FileId)
    requires f in PruneAll(st, ids, failing).db.files
    ensures f in st.db.files && PruneAll(st, ids, failing).db.files[f].key == st.db.files[f].key
    decreases |ids|
  {
    if ids != [] { PruneAllKeys(PruneOne(st, ids[0], failing), ids[1..], failing, f); }
  }

  lemma UsedFileKept(st: Store, namespace: string, cutoff: Time, limit: nat, failing: set<ObjectKey>, now: Time,
                     f: FileId)
    requires WellFormed(st) && f in st.db.files && HasUsages(st.db, f)
    ensures KeepsFile(Handle(st, PruneFiles(namespace, cutoff, limit, failing), now), f, st.db.files[f].key)
  {
    hide WellFormed;
    CandidatesEligible(st.db, namespace, cutoff, limit);
    var ids := Candidates(st.db, namespace, cutoff, limit);
    assert f !in ids;
    if f !in PruneAll(st, ids, failing).db.files { PruneAllRemoves(st, ids, failing, f); }
    PruneAllKeys(st, ids, failing, f);
    HandleKeeps(st, PruneFiles(namespace, cutoff, limit, failing), now);
    ObjectsThere(Handle(st, PruneFiles(namespace, cutoff, limit, failing), now), f);
  }

  lemma ObjectsThere(st: Store, f: FileId)
    requires WellFormed(st) && f in st.db.files
    ensures st.db.files[f].key in st.objects
  {
  }

  /** An article whose saved text embeds a file's markdown url keeps that file and its
      object for as long as the article stays as saved, whatever else happens. */
  lemma EmbeddedFileSurvives(h: History, k: nat, a: ArticleId, p: ArticleParams,
                             before: string, url: string, f: FileId, after: string)
    requires IsHistory(h) && k < |h.states| && a in h.states[k].db.articles
    requires h.states[k].db.articles[a] == ToArticle(p)
    requires p.contentRu == before + Markdown.MarkdownUrl(url, f) + after
          || p.contentEn == before + Markdown.MarkdownUrl(url, f) + after
    requires Markdown.IsIdText(f) && (after == [] || !Markdown.IsIdChar(after[0]))
    ensures f in h.states[k].db.files && h.states[k].db.files[f].key in h.states[k].objects
    ensures forall ns, cutoff, limit, failing, now ::
      KeepsFile(Handle(h.states[k], PruneFiles(ns, cutoff, limit, failing), now), f, h.states[k].db.files[f].key)
  {
    var st := h.states[k];
    HistoryWellFormed(h, k);
    Markdown.EmbeddedIdFound(before, url, f, after);
    assert ArticleRefsOk(st.db, st.db.articles[a]);
    assert Uses(st.db, a, f);
    forall ns, cutoff, limit, failing, now
      ensures KeepsFile(Handle(st, PruneFiles(ns, cutoff, limit, failing), now), f, st.db.files[f].key)
    {
      UsedFileKept(st, ns, cutoff, limit, failing, now, f);
    }
  }

  /** The request saves article `a` with form `p`, and is accepted. */
  ghost predicate SavesArticle(st: Store, r: Request, a: ArticleId, p: ArticleParams) {
    && FormAllowed(st.db, p)
    && ((r == CreateArticle(a, p) && a !in st.db.articles) || (r == UpdateArticle(a, p) && a in st.db.articles))
  }

  predicate NamesArticle(r: Request, a: ArticleId) {
    (r.CreateArticle? || r.UpdateArticle? || r.DeleteArticle?) && r.article == a
  }

  lemma {:induction false} PruneAllArticles(st: Store, ids: seq<FileId>, failing: set<ObjectKey>)
    ensures PruneAll(st, ids, failing).db.articles == st.db.articles
    decreases |ids|
  {
    if ids != [] { PruneAllArticles(PruneOne(st, ids[0], failing), ids[1..], failing); }
  }

  lemma OtherRequest(st: Store, r: Request, now: Time, a: ArticleId)
    requires a in st.db.articles && !NamesArticle(r, a)
    ensures a in Handle(st, r, now).db.articles && Handle(st, r, now).db.articles[a] == st.db.articles[a]
  {
    hide HasUsages;
    match r
    case PruneFiles(ns, cutoff, limit, failing) =>
      PruneAllArticles(st, Candidates(st.db, ns, cutoff, limit), failing);
    case _ =>
  }

  lemma SavedAs(st: Store, r: Request, now: Time, a: ArticleId, p: ArticleParams)
    requires SavesArticle(st, r, a, p)
    ensures a in Handle(st, r, now).db.articles && IsArticleOf(Handle(st, r, now).db.articles[a], p)
  {
    hide FormAllowed;
    hide IsArticleOf;
    hide SaveArticle;
    FormIsArticle(st.db, p);
    SavedRows(st.db, a, Some(ToArticle(p)), now);
  }

  lemma {:induction false} StaysSaved(h: History, i: nat, k: nat, a: ArticleId, p: ArticleParams)
    requires IsHistory(h) && i < k < |h.states| && SavesArticle(h.states[i], h.requests[i], a, p)
    requires forall j :: i < j < k ==> !NamesArticle(h.requests[j], a)
    ensures a in h.states[k].db.articles && IsArticleOf(h.states[k].db.articles[a], p)
  {
    hide Handle;
    hide IsArticleOf;
    hide NamesArticle;
    var st, r, now := h.states[k - 1], h.requests[k - 1], h.times[k - 1];
    assert h.states[(k - 1) + 1] == Handle(st, r, now);
    if k == i + 1 {
      SavedAs(st, r, now, a, p);
    } else {
      StaysSaved(h, i, k - 1, a, p);
      OtherRequest(st, r, now, a);
    }
  }

  /** An article saved with a cover, or with texts that name a file, keeps that file and its object
      until a request names the article again, and so does every prune in between. */
  lemma SavedFileSurvives(h: History, i: nat, k: nat, a: ArticleId, p: ArticleParams, f: FileId)
    requires IsHistory(h) && i < k < |h.states| && SavesArticle(h.states[i], h.requests[i], a, p)
    requires forall j :: i < j < k ==> !NamesArticle(h.requests[j], a)
    requires p.cover == Some(f) || InContent(p, f)
    ensures f in h.states[k].db.files && h.states[k].db.files[f].key in h.states[k].objects
    ensures h.states[k].db.files[f].orphanedAt.None?
    ensures forall ns, cutoff, limit, failing, now ::
      KeepsFile(Handle(h.states[k], PruneFiles(ns, cutoff, limit, failing), now), f, h.states[k].db.files[f].key)
  {
    hide Handle;
    var st := h.states[k];
    HistoryWellFormed(h, k);
    StaysSaved(h, i, k, a, p);
    assert ArticleRefsOk(st.db, st.db.articles[a]);
    assert Uses(st.db, a, f);
    forall ns, cutoff, limit, failing, now
      ensures KeepsFile(Handle(st, PruneFiles(ns, cutoff, limit, failing), now), f, st.db.files[f].key)
    {
      UsedFileKept(st, ns, cutoff, limit, failing, now, f);
    }
  }

  // ---- draining the backlog ----

  predicate AllDistinct(ids: seq<FileId>) {
    forall i, j :: 0 <= i < j < |ids| ==> ids[i] != ids[j]
  }

  function Surviving(files: map<FileId, FileRow>, ids: seq<FileId>, failing: set<ObjectKey>): map<FileId, FileRow> {
    map f | f in files && (f in ids ==> files[f].key in failing) :: files[f]
  }

  function KeysGone(files: map<FileId, FileRow>, ids: seq<FileId>, failing: set<ObjectKey>): set<ObjectKey> {
    set f | f in ids && f in files && files[f].key !in failing :: files[f].key
  }

  lemma KeysGoneHead(files: map<FileId, FileRow>, next: map<FileId, FileRow>, ids: seq<FileId>, failing: set<ObjectKey>)
    requires ids != [] && ids[0] in files && ids[0] !in ids[1..]
    requires next == if files[ids[0]].key in failing then files else files - {ids[0]}
    ensures KeysGone(files, ids, failing)
         == KeysGone(next, ids[1..], failing) + if files[ids[0]].key in failing then {} else {files[ids[0]].key}
  {
    assert forall f :: f in ids <==> f == ids[0] || f in ids[1..];
    forall key | key in KeysGone(files, ids, failing) && key != files[ids[0]].key
      ensures key in KeysGone(next, ids[1..], failing)
    {
      var f :| f in ids && f in files && files[f].key !in failing && files[f].key == key;
      assert f in ids[1..] && f in next;
    }
  }

  lemma {:induction false} PruneAllEffect(st: Store, ids: seq<FileId>, failing: set<ObjectKey>)
    requires forall f :: f in ids ==> f in st.db.files && !HasUsages(st.db, f)
    requires AllDistinct(ids)
    ensures PruneAll(st, ids, failing).db == st.db.(files := Surviving(st.db.files, ids, failing))
    ensures PruneAll(st, ids, failing).objects == st.objects - KeysGone(st.db.files, ids, failing)
    decreases |ids|
  {
    if ids == [] {
      assert Surviving(st.db.files, ids, failing) == st.db.files;
    } else {
      var f, rest, next := ids[0], ids[1..], PruneOne(st, ids[0], failing);
      assert ids == [f] + rest;
      assert f in ids && f !in rest;
      forall g | g in rest ensures g in next.db.files && !HasUsages(next.db, g) {
        assert g in ids;
        SameArticlesSameUsages(st.db, next.db, g);
      }
      PruneAllEffect(next, rest, failing);
      assert Surviving(next.db.files, rest, failing) == Surviving(st.db.files, ids, failing);
      KeysGoneHead(st.db.files, next.db.files, ids, failing);
    }
  }

  lemma CandidatesDistinct(db: Tables, namespace: string, cutoff: Time, limit: nat)
    ensures AllDistinct(Candidates(db, namespace, cutoff, limit))
  {
    var key := EligibleKeys(db, namespace, cutoff);
    ListingIsListing(key);
    forall i, j | 0 <= i < j < |Listing(key)| ensures Listing(key)[i] != Listing(key)[j] {
      ListingDistinct(key, Listing(key), i, j);
    }
  }

  // ---- which files one prune takes ----

  function Min(a: nat, b: nat): nat {
    if a <= b then a else b
  }

  /** An unused file of the namespace whose orphan time lies before the cutoff. */
  predicate Prunable(db: Tables, namespace: string, cutoff: Time, f: FileId) {
    && f in db.files && db.files[f].key.namespace == namespace
    && db.files[f].orphanedAt.Some? && db.files[f].orphanedAt.value < cutoff
    && forall a :: a in db.articles ==> f !in Managed(db.articles[a])
  }

  /** The order of `ORDER BY orphaned_at, id` on two rows. */
  predicate OrphanedBefore(db: Tables, f: FileId, g: FileId) {
    && f in db.files && g in db.files && db.files[f].orphanedAt.Some? && db.files[g].orphanedAt.Some?
    && var x, y := db.files[f].orphanedAt.value, db.files[g].orphanedAt.value;
       x < y || (x == y && LexLess(f, g))
  }

  lemma EligibleIsPrunable(db: Tables, namespace: string, cutoff: Time, f: FileId)
    ensures Eligible(db, namespace, cutoff, f) <==> Prunable(db, namespace, cutoff, f)
  {
    if Eligible(db, namespace, cutoff, f) {
      forall a | a in db.articles ensures f !in Managed(db.articles[a]) { assert !Uses(db, a, f); }
    }
  }

  lemma {:induction false} DistinctCount(ids: seq<FileId>)
    requires AllDistinct(ids)
    ensures |set f | f in ids| == |ids|
  {
    if ids == [] {
      assert (set f | f in ids) == {};
    } else {
      var n := |ids| - 1;
      DistinctCount(ids[..n]);
      assert ids == ids[..n] + [ids[n]];
      assert (set f | f in ids) == (set f | f in ids[..n]) + {ids[n]};
    }
  }

  /** The backlog holds the prunable files once each, in the order of their orphan times and ids. */
  lemma BacklogInOrder(db: Tables, namespace: string, cutoff: Time)
    ensures
      var all := Backlog(db, namespace, cutoff);
      && (forall f :: f in all <==> Prunable(db, namespace, cutoff, f))
      && (forall i, j :: 0 <= i < j < |all| ==> OrphanedBefore(db, all[i], all[j]) && all[i] != all[j])
  {
    hide HasUsages;
    hide Prunable;
    var key, all := EligibleKeys(db, namespace, cutoff), Backlog(db, namespace, cutoff);
    ListingIsListing(key);
    forall f ensures f in all <==> Prunable(db, namespace, cutoff, f) { EligibleIsPrunable(db, namespace, cutoff, f); }
    forall i, j | 0 <= i < j < |all| ensures OrphanedBefore(db, all[i], all[j]) && all[i] != all[j] {
      assert Before(key, all[i], all[j]);
      ListingDistinct(key, all, i, j);
    }
  }

  /** The batch of one prune, said over the rows: prunable files in the order of their orphan
      times and ids, as many as the limit and the files allow, and the first ones of all. */
  lemma CandidatesAreFirst(db: Tables, namespace: string, cutoff: Time, limit: nat)
    ensures
      var ids := Candidates(db, namespace, cutoff, limit);
      && (forall f :: f in ids ==> Prunable(db, namespace, cutoff, f))
      && (forall i, j :: 0 <= i < j < |ids| ==> OrphanedBefore(db, ids[i], ids[j]))
      && (forall f, g :: f in ids && g !in ids && Prunable(db, namespace, cutoff, g) ==> OrphanedBefore(db, f, g))
      && |ids| == Min(limit, |set f | f in db.files && Prunable(db, namespace, cutoff, f)|)
  {
    hide OrphanedBefore;
    hide Backlog;
    var all, ids := Backlog(db, namespace, cutoff), Candidates(db, namespace, cutoff, limit);
    BacklogInOrder(db, namespace, cutoff);
    forall f, g | f in ids && g !in ids && Prunable(db, namespace, cutoff, g) ensures OrphanedBefore(db, f, g) {
      var i :| 0 <= i < |ids| && ids[i] == f;
      var j :| 0 <= j < |all| && all[j] == g;
      assert all[i] == f && j >= |ids|;
    }
    DistinctCount(all);
    assert (set f | f in all) == (set f | f in db.files && Prunable(db, namespace, cutoff, f));
  }

  /** One prune deletes exactly the rows and objects of the candidates whose object the client
      could delete. */
  lemma PruneEffect(st: Store, namespace: string, cutoff: Time, limit: nat, failing: set<ObjectKey>)
    ensures Prune(st, namespace, cutoff, limit, failing).db
         == st.db.(files := Surviving(st.db.files, Candidates(st.db, namespace, cutoff, limit), failing))
    ensures Prune(st, namespace, cutoff, limit, failing).objects
         == st.objects - KeysGone(st.db.files, Candidates(st.db, namespace, cutoff, limit), failing)
  {
    CandidatesEligible(st.db, namespace, cutoff, limit);
    CandidatesDistinct(st.db, namespace, cutoff, limit);
    PruneAllEffect(st, Candidates(st.db, namespace, cutoff, limit), failing);
  }

  /** `after` is `before` without the files of `gone`. */
  ghost predicate Without(before: map<FileId, FileRow>, after: map<FileId, FileRow>, gone: seq<FileId>) {
    forall f :: f in after <==> f in before && f !in gone
  }

  /** A prune whose client never fails takes the first `limit` files off the backlog. */
  lemma PruneDropsBacklog(st: Store, namespace: string, cutoff: Time, limit: nat)
    ensures
      var backlog, n := Backlog(st.db, namespace, cutoff), Min(limit, |Backlog(st.db, namespace, cutoff)|);
      var st' := Prune(st, namespace, cutoff, limit, {});
      Backlog(st'.db, namespace, cutoff) == backlog[n..] && Without(st.db.files, st'.db.files, backlog[..n])
  {
    var key, backlog := EligibleKeys(st.db, namespace, cutoff), Backlog(st.db, namespace, cutoff);
    var n, st' := Min(limit, |backlog|), Prune(st, namespace, cutoff, limit, {});
    PruneEffect(st, namespace, cutoff, limit, {});
    assert Candidates(st.db, namespace, cutoff, limit) == backlog[..n];
    var rest := map x | x in key && x !in Listing(key)[..n] :: key[x];
    assert EligibleKeys(st'.db, namespace, cutoff) == rest by {
      forall f ensures HasUsages(st.db, f) <==> HasUsages(st'.db, f) { SameArticlesSameUsages(st.db, st'.db, f); }
    }
    ListingDrop(key, rest, n);
  }

  function PruneTimes(st: Store, namespace: string, cutoff: Time, limit: nat, k: nat): Store {
    if k == 0 then st else Prune(PruneTimes(st, namespace, cutoff, limit, k - 1), namespace, cutoff, limit, {})
  }

  lemma RoundsAddUp(k: nat, limit: nat, n: nat)
    requires k > 0
    ensures Min((k - 1) * limit, n) + Min(limit, n - Min((k - 1) * limit, n)) == Min(k * limit, n)
  {
    assert k * limit == (k - 1) * limit + limit;
  }

  lemma WithoutTwice(a: map<FileId, FileRow>, b: map<FileId, FileRow>, c: map<FileId, FileRow>, ids: seq<FileId>,
                     i: nat, j: nat)
    requires i + j <= |ids| && Without(a, b, ids[..i]) && Without(b, c, ids[i..][..j])
    ensures Without(a, c, ids[..i + j]) && ids[i..][j..] == ids[i + j..]
  {
    assert ids[..i + j] == ids[..i] + ids[i..][..j];
  }

  /** The state of the backlog after `gone` of its files have been deleted. */
  ghost predicate Drained(st: Store, st': Store, namespace: string, cutoff: Time, gone: nat) {
    var backlog := Backlog(st.db, namespace, cutoff);
    gone <= |backlog| && Backlog(st'.db, namespace, cutoff) == backlog[gone..]
      && Without(st.db.files, st'.db.files, backlog[..gone])
  }

  lemma DrainNone(st: Store, namespace: string, cutoff: Time)
    ensures Drained(st, st, namespace, cutoff, 0)
  {
    hide Backlog;
    var backlog := Backlog(st.db, namespace, cutoff);
    assert backlog[0..] == backlog;
  }

  lemma DrainMore(st: Store, mid: Store, namespace: string, cutoff: Time, was: nat, limit: nat)
    requires Drained(st, mid, namespace, cutoff, was)
    ensures Drained(st, Prune(mid, namespace, cutoff, limit, {}), namespace, cutoff,
                    was + Min(limit, |Backlog(st.db, namespace, cutoff)| - was))
  {
    hide Prune;
    hide Backlog;
    hide Without;
    var backlog := Backlog(st.db, namespace, cutoff);
    var next, n := Prune(mid, namespace, cutoff, limit, {}), Min(limit, |backlog| - was);
    PruneDropsBacklog(mid, namespace, cutoff, limit);
    WithoutTwice(st.db.files, mid.db.files, next.db.files, backlog, was, n);
  }

  /** With no other activity, `k` successive prunes delete exactly the first
      min(k * limit, n) files of the backlog; it is empty as soon as k * limit >= n. */
  lemma {:induction false} BacklogDrains(st: Store, namespace: string, cutoff: Time, limit: nat, k: nat)
    ensures Drained(st, PruneTimes(st, namespace, cutoff, limit, k), namespace, cutoff,
                    Min(k * limit, |Backlog(st.db, namespace, cutoff)|))
  {
    hide Drained;
    hide Backlog;
    hide Prune;
    var n := |Backlog(st.db, namespace, cutoff)|;
    if k > 0 {
      BacklogDrains(st, namespace, cutoff, limit, k - 1);
      DrainMore(st, PruneTimes(st, namespace, cutoff, limit, k - 1), namespace, cutoff, Min((k - 1) * limit, n), limit);
      RoundsAddUp(k, limit, n);
    } else {
      DrainNone(st, namespace, cutoff);
    }
  }

  /** The backlog is empty after exactly the rounds with k * limit >= n. */
  lemma BacklogEmpties(st: Store, namespace: string, cutoff: Time, limit: nat, k: nat)
    ensures Backlog(PruneTimes(st, namespace, cutoff, limit, k).db, namespace, cutoff) == []
       <==> k * limit >= |Backlog(st.db, namespace, cutoff)|
  {
    BacklogDrains(st, namespace, cutoff, limit, k);
  }

  /** A prune changes nothing exactly when every candidate's object delete fails: files that
      keep failing at the head of the backlog hold up everything behind them. */
  lemma PruneStalls(st: Store, namespace: string, cutoff: Time, limit: nat, failing: set<ObjectKey>)
    ensures Prune(st, namespace, cutoff, limit, failing).db == st.db
      <==> forall f ::
        f in Candidates(st.db, namespace, cutoff, limit) ==> f in st.db.files && st.db.files[f].key in failing
  {
    var ids := Candidates(st.db, namespace, cutoff, limit);
    PruneEffect(st, namespace, cutoff, limit, failing);
    CandidatesEligible(st.db, namespace, cutoff, limit);
    var s := Surviving(st.db.files, ids, failing);
    if forall f :: f in ids ==> st.db.files[f].key in failing {
      assert s == st.db.files;
    } else {
      var f :| f in ids && st.db.files[f].key !in failing;
      assert f in st.db.files && f !in s;
    }
  }
}
