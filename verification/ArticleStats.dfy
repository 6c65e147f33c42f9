/** Article statistics: folding daily rows into one entry per article, sorted by descending
    views and then by title, with nothing lost or counted twice. */
module ArticleStats {
  import opened Ordering

  datatype Daily = Daily(articleId: string, title: string, slug: string, views: int, engaged: int)

  datatype Stats = Stats(articleId: string, title: string, slug: string, views: int, engaged: int, reactions: int)

  datatype Sums = Sums(views: int, engaged: int)

  datatype Totals = Totals(views: int, engaged: int, reactions: int)

  function Plus(a: Sums, b: Sums): Sums {
    Sums(a.views + b.views, a.engaged + b.engaged)
  }

  /** The sums over all daily rows, and over those of one article. */
  function DailySums(daily: seq<Daily>): Sums {
    if daily == [] then Sums(0, 0)
    else Plus(DailySums(daily[..|daily| - 1]), Sums(daily[|daily| - 1].views, daily[|daily| - 1].engaged))
  }

  function ArticleSums(daily: seq<Daily>, id: string): Sums {
    if daily == [] then Sums(0, 0)
    else
      var n := |daily| - 1;
      var before := ArticleSums(daily[..n], id);
      if daily[n].articleId == id then Plus(before, Sums(daily[n].views, daily[n].engaged)) else before
  }

  function EntrySums(entries: seq<Stats>): Sums {
    if entries == [] then Sums(0, 0)
    else Plus(EntrySums(entries[..|entries| - 1]), Sums(entries[|entries| - 1].views, entries[|entries| - 1].engaged))
  }

  function ReactionSum(entries: seq<Stats>): int {
    if entries == [] then 0 else ReactionSum(entries[..|entries| - 1]) + entries[|entries| - 1].reactions
  }

  function ReactionsOf(reactions: map<string, int>, id: string): int {
    if id in reactions then reactions[id] else 0
  }

  predicate Mentions(daily: seq<Daily>, id: string) {
    exists i :: 0 <= i < |daily| && daily[i].articleId == id
  }

  /** Title and slug come from the article's first daily row. */
  predicate FirstRowOf(daily: seq<Daily>, i: int, e: Stats) {
    && 0 <= i < |daily| && daily[i].articleId == e.articleId && daily[i].title == e.title && daily[i].slug == e.slug
    && forall j :: 0 <= j < i ==> daily[j].articleId != e.articleId
  }

  /** `e` is the entry of its article: its own rows summed up, its reactions counted once. */
  ghost predicate IsEntry(daily: seq<Daily>, reactions: map<string, int>, e: Stats) {
    && Sums(e.views, e.engaged) == ArticleSums(daily, e.articleId)
    && e.reactions == (if e.articleId in reactions then reactions[e.articleId] else 0)
    && exists i :: FirstRowOf(daily, i, e)
  }

  predicate DistinctArticles(entries: seq<Stats>) {
    forall i, j :: 0 <= i < j < |entries| ==> entries[i].articleId != entries[j].articleId
  }

  /** One entry for every article that the rows mention, and no other. */
  ghost predicate Grouped(daily: seq<Daily>, reactions: map<string, int>, entries: seq<Stats>) {
    && DistinctArticles(entries)
    && (forall e :: e in entries ==> IsEntry(daily, reactions, e))
    && (forall id :: Mentions(daily, id) ==> exists e :: e in entries && e.articleId == id)
  }

  // ---- the sort ----

  /** The key (-views, title) of `a` is smaller. */
  predicate Precedes(a: Stats, b: Stats) {
    a.views > b.views || (a.views == b.views && LexLess(a.title, b.title))
  }

  predicate Sorted(entries: seq<Stats>) {
    forall i, j :: 0 <= i < j < |entries| ==> !Precedes(entries[j], entries[i])
  }

  /** Descending views, and ascending titles where the views are equal. */
  predicate ByViewsThenTitle(entries: seq<Stats>) {
    forall i, j :: 0 <= i < j < |entries| ==>
      || entries[i].views > entries[j].views
      || (entries[i].views == entries[j].views && !LexLess(entries[j].title, entries[i].title))
  }

  lemma SortedByViews(entries: seq<Stats>)
    ensures Sorted(entries) <==> ByViewsThenTitle(entries)
  {
    hide LexLess;
  }

  predicate SameKey(a: Stats, b: Stats) {
    a.views == b.views && a.title == b.title
  }

  /** The entries with the key of `e`, in their order. */
  function WithKey(entries: seq<Stats>, e: Stats): seq<Stats> {
    if entries == [] then []
    else (if SameKey(entries[0], e) then [entries[0]] else []) + WithKey(entries[1..], e)
  }

  function Insert(x: Stats, entries: seq<Stats>): seq<Stats> {
    if entries == [] || Precedes(x, entries[0]) then [x] + entries else [entries[0]] + Insert(x, entries[1..])
  }

  /** Python's sorted: stable. */
  function SortEntries(entries: seq<Stats>): seq<Stats> {
    if entries == [] then [] else Insert(entries[|entries| - 1], SortEntries(entries[..|entries| - 1]))
  }

  lemma KeyOrder(a: Stats, b: Stats, c: Stats)
    ensures !Precedes(a, a)
    ensures Precedes(a, b) && !Precedes(c, b) ==> !Precedes(c, a)
    ensures !Precedes(b, a) && !Precedes(c, b) ==> !Precedes(c, a)
    ensures SameKey(a, b) ==> !Precedes(a, b)
  {
    LexIrreflexive(a.title);
    LexTotal(b.title, c.title);
    LexTotal(a.title, b.title);
    if LexLess(c.title, a.title) && LexLess(a.title, b.title) { LexTransitive(c.title, a.title, b.title); }
    if LexLess(b.title, c.title) && LexLess(c.title, a.title) { LexTransitive(b.title, c.title, a.title); }
  }

  lemma {:induction false} InsertElements(x: Stats, entries: seq<Stats>)
    ensures multiset(Insert(x, entries)) == multiset(entries) + multiset{x}
  {
    if entries != [] && !Precedes(x, entries[0]) {
      InsertElements(x, entries[1..]);
      assert entries == [entries[0]] + entries[1..];
    }
  }

  lemma {:induction false} InsertSorts(x: Stats, entries: seq<Stats>)
    requires Sorted(entries)
    ensures Sorted(Insert(x, entries))
  {
    var out := Insert(x, entries);
    if entries == [] {
    } else if Precedes(x, entries[0]) {
      forall i, j | 0 <= i < j < |out| ensures !Precedes(out[j], out[i]) {
        assert out[j] == entries[j - 1];
        KeyOrder(x, entries[0], entries[j - 1]);
        KeyOrder(entries[0], x, x);
        if i == 0 { assert !Precedes(entries[j - 1], entries[0]); }
        else { assert out[i] == entries[i - 1]; }
      }
    } else {
      InsertSorts(x, entries[1..]);
      InsertElements(x, entries[1..]);
      var tail := Insert(x, entries[1..]);
      forall i, j | 0 <= i < j < |out| ensures !Precedes(out[j], out[i]) {
        assert out[j] == tail[j - 1];
        if i == 0 {
          assert tail[j - 1] in multiset(tail);
          assert tail[j - 1] == x || tail[j - 1] in entries[1..];
        } else {
          assert out[i] == tail[i - 1];
        }
      }
    }
  }

  lemma {:induction false} SortedHeadKey(x: Stats, entries: seq<Stats>, e: Stats)
    requires Sorted(entries) && entries != [] && Precedes(x, entries[0]) && SameKey(x, e)
    ensures WithKey(entries, e) == []
    decreases |entries|
  {
    KeyOrder(x, entries[0], entries[0]);
    KeyOrder(entries[0], x, x);
    if |entries| > 1 {
      assert !Precedes(entries[1], entries[0]);
      PrecedesOn(x, entries[0], entries[1]);
      SortedHeadKey(x, entries[1..], e);
    }
  }

  lemma PrecedesOn(x: Stats, a: Stats, b: Stats)
    requires Precedes(x, a) && !Precedes(b, a)
    ensures Precedes(x, b)
  {
    LexTotal(a.title, b.title);
    if LexLess(x.title, a.title) && LexLess(a.title, b.title) { LexTransitive(x.title, a.title, b.title); }
  }

  lemma {:induction false} InsertStable(x: Stats, entries: seq<Stats>, e: Stats)
    requires Sorted(entries)
    ensures WithKey(Insert(x, entries), e) == WithKey(entries, e) + if SameKey(x, e) then [x] else []
  {
    if entries != [] {
      if Precedes(x, entries[0]) {
        if SameKey(x, e) { SortedHeadKey(x, entries, e); }
      } else {
        InsertStable(x, entries[1..], e);
      }
    }
  }

  lemma {:induction false} WithKeyAppend(entries: seq<Stats>, x: Stats, e: Stats)
    ensures WithKey(entries + [x], e) == WithKey(entries, e) + if SameKey(x, e) then [x] else []
  {
    if entries != [] {
      assert (entries + [x])[1..] == entries[1..] + [x];
      WithKeyAppend(entries[1..], x, e);
    }
  }

  /** The sort returns the same entries, ordered, and keeps the order of equal keys. */
  lemma {:induction false} SortCorrect(entries: seq<Stats>)
    ensures Sorted(SortEntries(entries))
    ensures multiset(SortEntries(entries)) == multiset(entries)
    ensures forall e :: WithKey(SortEntries(entries), e) == WithKey(entries, e)
  {
    if entries != [] {
      var n := |entries| - 1;
      var before, x := entries[..n], entries[n];
      SortCorrect(before);
      assert entries == before + [x];
      InsertSorts(x, SortEntries(before));
      InsertElements(x, SortEntries(before));
      forall e ensures WithKey(SortEntries(entries), e) == WithKey(entries, e) {
        InsertStable(x, SortEntries(before), e);
        WithKeyAppend(before, x, e);
      }
    }
  }

  // ---- sums do not depend on the order ----

  lemma {:induction false} SumsFront(x: Stats, entries: seq<Stats>)
    ensures EntrySums([x] + entries) == Plus(Sums(x.views, x.engaged), EntrySums(entries))
    ensures ReactionSum([x] + entries) == x.reactions + ReactionSum(entries)
  {
    if entries == [] {
      assert [x] + entries == [x] && [x][..0] == [];
    } else {
      var n := |entries| - 1;
      SumsFront(x, entries[..n]);
      assert ([x] + entries)[..n + 1] == [x] + entries[..n];
    }
  }

  lemma {:induction false} InsertSums(x: Stats, entries: seq<Stats>)
    ensures EntrySums(Insert(x, entries)) == Plus(Sums(x.views, x.engaged), EntrySums(entries))
    ensures ReactionSum(Insert(x, entries)) == x.reactions + ReactionSum(entries)
  {
    if entries == [] || Precedes(x, entries[0]) {
      SumsFront(x, entries);
    } else {
      InsertSums(x, entries[1..]);
      SumsFront(entries[0], Insert(x, entries[1..]));
      SumsFront(entries[0], entries[1..]);
      assert entries == [entries[0]] + entries[1..];
    }
  }

  lemma {:induction false} SortSums(entries: seq<Stats>)
    ensures EntrySums(SortEntries(entries)) == EntrySums(entries)
    ensures ReactionSum(SortEntries(entries)) == ReactionSum(entries)
  {
    if entries != [] {
      var n := |entries| - 1;
      SortSums(entries[..n]);
      InsertSums(entries[n], SortEntries(entries[..n]));
    }
  }

  lemma {:induction false} UpdateSums(entries: seq<Stats>, p: int, e: Stats)
    requires 0 <= p < |entries|
    ensures EntrySums(entries[p := e])
         == Sums(EntrySums(entries).views - entries[p].views + e.views,
                 EntrySums(entries).engaged - entries[p].engaged + e.engaged)
  {
    var n := |entries| - 1;
    if p < n {
      UpdateSums(entries[..n], p, e);
      assert entries[p := e][..n] == entries[..n][p := e];
    } else {
      assert entries[p := e][..n] == entries[..n];
    }
  }

  // ---- the fold ----

  /** The dictionary: `entries` are its values in insertion order, `position` finds them. */
  ghost predicate Indexed(entries: seq<Stats>, position: map<string, nat>) {
    && (forall id :: id in position ==> position[id] < |entries| && entries[position[id]].articleId == id)
    && (forall p :: 0 <= p < |entries| ==> entries[p].articleId in position && position[entries[p].articleId] == p)
  }

  ghost predicate FoldInv(daily: seq<Daily>, reactions: map<string, int>, entries: seq<Stats>,
                          position: map<string, nat>) {
    && Indexed(entries, position)
    && (forall p :: 0 <= p < |entries| ==> IsEntry(daily, reactions, entries[p]))
    && (forall id :: id in position <==> Mentions(daily, id))
    && EntrySums(entries) == DailySums(daily)
  }

  lemma MentionsMore(daily: seq<Daily>, item: Daily, id: string)
    ensures Mentions(daily + [item], id) <==> Mentions(daily, id) || item.articleId == id
  {
    var more := daily + [item];
    if Mentions(daily, id) {
      var i :| 0 <= i < |daily| && daily[i].articleId == id;
      assert more[i].articleId == id;
    }
    if item.articleId == id { assert more[|daily|].articleId == id; }
  }

  lemma {:induction false} UnmentionedSums(daily: seq<Daily>, id: string)
    requires !Mentions(daily, id)
    ensures ArticleSums(daily, id) == Sums(0, 0)
  {
    if daily != [] {
      var n := |daily| - 1;
      assert daily == daily[..n] + [daily[n]];
      MentionsMore(daily[..n], daily[n], id);
      UnmentionedSums(daily[..n], id);
    }
  }

  /** Entries of other articles stay right when one more row comes. */
  lemma OtherEntry(daily: seq<Daily>, item: Daily, reactions: map<string, int>, e: Stats)
    requires IsEntry(daily, reactions, e) && e.articleId != item.articleId
    ensures IsEntry(daily + [item], reactions, e)
  {
    var more := daily + [item];
    assert more[..|daily|] == daily;
    var i :| FirstRowOf(daily, i, e);
    assert FirstRowOf(more, i, e);
  }

  lemma GrownEntry(daily: seq<Daily>, item: Daily, reactions: map<string, int>, e: Stats)
    requires IsEntry(daily, reactions, e) && e.articleId == item.articleId
    ensures IsEntry(daily + [item], reactions, e.(views := e.views + item.views, engaged := e.engaged + item.engaged))
  {
    var more, grown := daily + [item], e.(views := e.views + item.views, engaged := e.engaged + item.engaged);
    assert more[..|daily|] == daily;
    var i :| FirstRowOf(daily, i, e);
    assert FirstRowOf(more, i, grown);
  }

  lemma NewEntry(daily: seq<Daily>, item: Daily, reactions: map<string, int>)
    requires !Mentions(daily, item.articleId)
    ensures IsEntry(daily + [item], reactions,
                    Stats(item.articleId, item.title, item.slug, item.views, item.engaged,
                          ReactionsOf(reactions, item.articleId)))
  {
    var more := daily + [item];
    var e := Stats(item.articleId, item.title, item.slug, item.views, item.engaged,
                   ReactionsOf(reactions, item.articleId));
    assert more[..|daily|] == daily;
    UnmentionedSums(daily, item.articleId);
    assert FirstRowOf(more, |daily|, e);
  }

  lemma FoldNew(daily: seq<Daily>, item: Daily, reactions: map<string, int>, entries: seq<Stats>,
                position: map<string, nat>)
    requires FoldInv(daily, reactions, entries, position) && item.articleId !in position
    ensures
      var e := Stats(item.articleId, item.title, item.slug, item.views, item.engaged,
                     ReactionsOf(reactions, item.articleId));
      FoldInv(daily + [item], reactions, entries + [e], position[item.articleId := |entries|])
  {
    var more := daily + [item];
    var e := Stats(item.articleId, item.title, item.slug, item.views, item.engaged,
                   ReactionsOf(reactions, item.articleId));
    hide IsEntry;
    hide Mentions;
    forall id ensures Mentions(more, id) <==> Mentions(daily, id) || item.articleId == id {
      MentionsMore(daily, item, id);
    }
    NewEntry(daily, item, reactions);
    forall p | 0 <= p < |entries| ensures IsEntry(more, reactions, entries[p]) {
      OtherEntry(daily, item, reactions, entries[p]);
    }
    assert (entries + [e])[..|entries|] == entries && more[..|daily|] == daily;
  }

  lemma FoldOld(daily: seq<Daily>, item: Daily, reactions: map<string, int>, entries: seq<Stats>,
                position: map<string, nat>)
    requires FoldInv(daily, reactions, entries, position) && item.articleId in position
    ensures
      var p := position[item.articleId];
      p < |entries| &&
      var e := entries[p].(views := entries[p].views + item.views, engaged := entries[p].engaged + item.engaged);
      FoldInv(daily + [item], reactions, entries[p := e], position)
  {
    hide IsEntry;
    hide Mentions;
    hide Indexed;
    var more, p := daily + [item], position[item.articleId];
    IndexedUpdate(entries, position, item.articleId, item);
    var e := entries[p].(views := entries[p].views + item.views, engaged := entries[p].engaged + item.engaged);
    var updated := entries[p := e];
    forall id ensures Mentions(more, id) <==> Mentions(daily, id) || item.articleId == id {
      MentionsMore(daily, item, id);
    }
    forall q | 0 <= q < |entries| ensures IsEntry(more, reactions, updated[q]) {
      if q == p {
        GrownEntry(daily, item, reactions, entries[p]);
      } else {
        OtherEntry(daily, item, reactions, entries[q]);
      }
    }
    UpdateSums(entries, p, e);
    assert more[..|daily|] == daily;
  }

  lemma IndexedUpdate(entries: seq<Stats>, position: map<string, nat>, id: string, item: Daily)
    requires Indexed(entries, position) && id in position
    ensures position[id] < |entries| && entries[position[id]].articleId == id
    ensures forall q :: 0 <= q < |entries| && q != position[id] ==> entries[q].articleId != id
    ensures
      var p := position[id];
      Indexed(entries[p := entries[p].(views := entries[p].views + item.views,
                                       engaged := entries[p].engaged + item.engaged)], position)
  {
  }

  lemma FoldGroups(daily: seq<Daily>, reactions: map<string, int>, entries: seq<Stats>, position: map<string, nat>)
    requires FoldInv(daily, reactions, entries, position)
    ensures Grouped(daily, reactions, SortEntries(entries))
    ensures EntrySums(SortEntries(entries)) == DailySums(daily)
  {
    hide IsEntry;
    hide Mentions;
    SortCorrect(entries);
    SortSums(entries);
    var out := SortEntries(entries);
    assert forall e :: e in out <==> e in entries by {
      assert forall e :: e in out <==> e in multiset(out);
      assert forall e :: e in entries <==> e in multiset(entries);
    }
    SortKeepsDistinct(entries);
    forall id | Mentions(daily, id) ensures exists e :: e in out && e.articleId == id {
      assert entries[position[id]] in entries;
    }
  }

  lemma {:induction false} InsertKeepsDistinct(x: Stats, entries: seq<Stats>)
    requires DistinctArticles(entries) && forall e :: e in entries ==> e.articleId != x.articleId
    ensures DistinctArticles(Insert(x, entries))
  {
    if entries != [] && !Precedes(x, entries[0]) {
      InsertKeepsDistinct(x, entries[1..]);
      InsertElements(x, entries[1..]);
      var tail := Insert(x, entries[1..]);
      forall j | 0 <= j < |tail| ensures tail[j].articleId != entries[0].articleId {
        assert tail[j] in multiset(tail);
        assert tail[j] == x || tail[j] in entries[1..];
      }
    }
  }

  lemma {:induction false} SortKeepsDistinct(entries: seq<Stats>)
    requires DistinctArticles(entries)
    ensures DistinctArticles(SortEntries(entries))
  {
    if entries != [] {
      var n := |entries| - 1;
      SortKeepsDistinct(entries[..n]);
      SortCorrect(entries[..n]);
      forall e | e in SortEntries(entries[..n]) ensures e.articleId != entries[n].articleId {
        assert e in multiset(SortEntries(entries[..n]));
        assert e in multiset(entries[..n]);
      }
      InsertKeepsDistinct(entries[n], SortEntries(entries[..n]));
    }
  }

  /** One entry per article, ordered by (-views, title), whose sums are the sums of the rows. */
  method BuildArticleStats(daily: seq<Daily>, reactions: map<string, int>) returns (articles: seq<Stats>)
    ensures Grouped(daily, reactions, articles)
    ensures ByViewsThenTitle(articles)
    ensures EntrySums(articles) == DailySums(daily)
  {
    hide FoldInv;
    hide Grouped;
    hide Sorted;
    hide ByViewsThenTitle;
    hide EntrySums;
    hide DailySums;
    hide SortEntries;
    var entries: seq<Stats> := [];
    var position: map<string, nat> := map[];
    FoldEmpty(reactions);
    assert daily[..0] == [];
    for k := 0 to |daily|
      invariant FoldInv(daily[..k], reactions, entries, position)
    {
      var item := daily[k];
      assert daily[..k + 1] == daily[..k] + [item];
      if item.articleId !in position {
        FoldNew(daily[..k], item, reactions, entries, position);
        position := position[item.articleId := |entries|];
        entries := entries
          + [Stats(item.articleId, item.title, item.slug, item.views, item.engaged,
                   ReactionsOf(reactions, item.articleId))];
      } else {
        FoldOld(daily[..k], item, reactions, entries, position);
        var p := position[item.articleId];
        var existing := entries[p];
        entries := entries[p := existing.(views := existing.views + item.views,
                                          engaged := existing.engaged + item.engaged)];
      }
    }
    assert daily[..|daily|] == daily;
    articles := SortEntries(entries);
    SortCorrect(entries);
    SortedByViews(articles);
    FoldGroups(daily, reactions, entries, position);
  }

  lemma FoldEmpty(reactions: map<string, int>)
    ensures FoldInv([], reactions, [], map[])
  {
  }

  /** The totals are the sums over the rows and over the articles alike. */
  method FromDailyStats(daily: seq<Daily>, reactions: map<string, int>) returns (totals: Totals, articles: seq<Stats>)
    ensures Grouped(daily, reactions, articles) && ByViewsThenTitle(articles)
    ensures Sums(totals.views, totals.engaged) == DailySums(daily) == EntrySums(articles)
    ensures totals.reactions == ReactionSum(articles)
  {
    articles := BuildArticleStats(daily, reactions);
    totals := Totals(DailySums(daily).views, DailySums(daily).engaged, ReactionSum(articles));
  }
}
