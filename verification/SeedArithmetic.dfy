/** The div/mod row formulas of the query-plan data generator. Every series value `v` is at
    least 1; SQL's `floor((v - 1) / n)` and `mod(v - 1, n)` are Dafny's `/` and `%` there. */
module SeedArithmetic {
  const SOURCE_COUNT := 6
  const DAY_BUCKETS := 1095
  const SOURCE_DAY_OFFSET := 61
  const POSTGRESQL_ID := 2
  const PYDANTIC_ID := 3
  const GENERAL_TAG_START_ID := 4
  const ROUND_STRIDE := 9973
  const EXISTING_ITEM := 100
  const PERCENTAGE_BASE := 100

  // ---- positional arithmetic ----

  lemma Multiples(d: int, n: int)
    requires n > 0
    ensures d >= 1 ==> d * n >= n
    ensures d <= 0 ==> d * n <= 0
    ensures d <= -1 ==> d * n <= -n
  {
    if d >= 1 { assert (d - 1) * n >= 0; }
    if d <= 0 { assert (-d) * n >= 0; }
    if d <= -1 { assert (-d - 1) * n >= 0; }
  }

  /** A number is its quotient and remainder, and there is no other way to write it. */
  lemma Digits(x: int, q: int, r: int, n: int)
    requires 0 <= r < n && x == q * n + r
    ensures x / n == q && x % n == r
  {
    var d := x / n - q;
    assert x == n * (x / n) + x % n;
    assert d * n == r - x % n;
    Multiples(d, n);
  }

  /** Equal remainders are a difference that is a multiple of the modulus. */
  lemma SameRemainder(a: int, b: int, m: int)
    requires m > 0
    ensures a % m == b % m <==> (a - b) % m == 0
  {
    var qa, qb, q := a / m, b / m, (a - b) / m;
    assert a == qa * m + a % m && b == qb * m + b % m && a - b == q * m + (a - b) % m;
    if a % m == b % m {
      assert a - b == (qa - qb) * m;
      Digits(a - b, qa - qb, 0, m);
    } else if (a - b) % m == 0 {
      assert a == (qb + q) * m + b % m;
      Digits(a, qb + q, b % m, m);
    }
  }

  lemma NotMultiple(x: int, m: int)
    requires 0 < x < m
    ensures x % m != 0
  {
    Digits(x, 0, x, m);
  }

  // ---- a series laid out in rounds of `n` positions ----

  function Position(v: int, n: int): int
    requires n > 0
  {
    (v - 1) % n
  }

  function Round(v: int, n: int): int
    requires n > 0
  {
    (v - 1) / n
  }

  lemma Placed(v: int, n: int)
    requires v >= 1 && n > 0
    ensures v - 1 == Round(v, n) * n + Position(v, n) && 0 <= Position(v, n) < n && Round(v, n) >= 0
  {
    assert v - 1 == n * ((v - 1) / n) + (v - 1) % n;
    Multiples((v - 1) / n, n);
  }

  /** Same position, `d` rounds apart: that is all that `d * n` does. */
  lemma RoundsApart(v: int, n: int, d: int)
    requires v >= 1 && n > 0 && d >= 0
    ensures Position(v + d * n, n) == Position(v, n) && Round(v + d * n, n) == Round(v, n) + d
  {
    Placed(v, n);
    assert v + d * n - 1 == (Round(v, n) + d) * n + Position(v, n);
    Digits(v + d * n - 1, Round(v, n) + d, Position(v, n), n);
  }

  lemma SamePosition(v: int, w: int, n: int)
    requires 1 <= v < w && n > 0 && Position(v, n) == Position(w, n)
    ensures w == v + (Round(w, n) - Round(v, n)) * n && Round(w, n) - Round(v, n) >= 1
  {
    Placed(v, n);
    Placed(w, n);
    var d := Round(w, n) - Round(v, n);
    assert w - v == d * n;
    Multiples(d, n);
  }

  // ---- article analytics ----

  datatype AnalyticsRow = AnalyticsRow(article: int, day: int, source: int)

  function AnalyticsAt(v: int, articles: int): AnalyticsRow
    requires articles > 0
  {
    var source := (v - 1) % SOURCE_COUNT;
    var article := (v - 1) / SOURCE_COUNT % articles + 1;
    var cycle := (v - 1) / (SOURCE_COUNT * articles);
    AnalyticsRow(article, (article - 1 + source * SOURCE_DAY_OFFSET + cycle) % DAY_BUCKETS, source)
  }

  /** The source and the article are the two digits of the position in a cycle. */
  lemma AnalyticsDigits(v: int, articles: int)
    requires v >= 1 && articles > 0
    ensures
      var row := AnalyticsAt(v, articles);
      && 0 <= row.source < SOURCE_COUNT && 1 <= row.article <= articles
      && Position(v, SOURCE_COUNT * articles) == (row.article - 1) * SOURCE_COUNT + row.source
  {
    var source, rest := (v - 1) % SOURCE_COUNT, (v - 1) / SOURCE_COUNT;
    var article, cycle := rest % articles, rest / articles;
    assert rest == cycle * articles + article;
    assert v - 1 == rest * SOURCE_COUNT + source;
    var position := article * SOURCE_COUNT + source;
    assert position < SOURCE_COUNT * articles by {
      assert article * SOURCE_COUNT <= (articles - 1) * SOURCE_COUNT;
    }
    assert v - 1 == cycle * (SOURCE_COUNT * articles) + position by {
      assert cycle * articles * SOURCE_COUNT == cycle * (SOURCE_COUNT * articles);
    }
    Digits(v - 1, cycle, position, SOURCE_COUNT * articles);
  }

  /** Two rows agree exactly when they are a multiple of 1095 whole cycles apart. */
  lemma SameAnalyticsRow(v: int, w: int, articles: int)
    requires 1 <= v < w && articles > 0
    ensures
      var cycle := SOURCE_COUNT * articles;
      (AnalyticsAt(v, articles) == AnalyticsAt(w, articles))
      <==> (Position(v, cycle) == Position(w, cycle) && (Round(w, cycle) - Round(v, cycle)) % DAY_BUCKETS == 0)
  {
    var cycle, a, b := SOURCE_COUNT * articles, AnalyticsAt(v, articles), AnalyticsAt(w, articles);
    AnalyticsDigits(v, articles);
    AnalyticsDigits(w, articles);
    if Position(v, cycle) == Position(w, cycle) {
      assert a.source == b.source && a.article == b.article by {
        Digits(Position(v, cycle), a.article - 1, a.source, SOURCE_COUNT);
        Digits(Position(w, cycle), b.article - 1, b.source, SOURCE_COUNT);
      }
      var base := a.article - 1 + a.source * SOURCE_DAY_OFFSET;
      SameRemainder(base + Round(w, cycle), base + Round(v, cycle), DAY_BUCKETS);
    }
  }

  predicate AnalyticsDistinct(count: nat, articles: int)
    requires articles > 0
  {
    forall v, w :: 1 <= v < w <= count ==> AnalyticsAt(v, articles) != AnalyticsAt(w, articles)
  }

  /** The generated rows respect the unique constraint on (article, date, source) exactly
      when there are at most 6 * articles * 1095 of them. */
  lemma AnalyticsRowsDistinct(count: nat, articles: int)
    requires articles > 0
    ensures AnalyticsDistinct(count, articles) <==> count <= 6 * articles * 1095
  {
    var cycle := SOURCE_COUNT * articles;
    if count <= cycle * DAY_BUCKETS {
      forall v, w | 1 <= v < w <= count ensures AnalyticsAt(v, articles) != AnalyticsAt(w, articles) {
        SameAnalyticsRow(v, w, articles);
        if Position(v, cycle) == Position(w, cycle) {
          SamePosition(v, w, cycle);
          FewRounds(v, w, cycle, DAY_BUCKETS);
          NotMultiple(Round(w, cycle) - Round(v, cycle), DAY_BUCKETS);
        }
      }
    } else {
      var w := 1 + DAY_BUCKETS * cycle;
      RoundsApart(1, cycle, DAY_BUCKETS);
      SameAnalyticsRow(1, w, articles);
      assert AnalyticsAt(1, articles) == AnalyticsAt(w, articles);
    }
  }

  /** Within the first `k` rounds, rounds are less than `k` apart. */
  lemma FewRounds(v: int, w: int, n: int, k: int)
    requires 1 <= v < w <= n * k && n > 0
    ensures Round(w, n) - Round(v, n) < k
  {
    Placed(v, n);
    Placed(w, n);
    Multiples(Round(w, n) - k + 1, n);
    assert (Round(w, n) - k + 1) * n == Round(w, n) * n - k * n + n;
  }

  // ---- resource links ----

  datatype Link = Link(owner: int, other: int)

  /** Links past the four of the two existing items; `items` counts those two as well. */
  function GeneralResourceLink(v: int, items: int, resources: int): Link
    requires items > 2 && resources > 0
  {
    var position := Position(v, items - 2) + 1;
    var item := if position < EXISTING_ITEM then position else position + 2;
    Link(item, (position - 1 + Round(v, items - 2)) % resources + 1)
  }

  function ResourceLinkAt(v: int, items: int, resources: int): Link
    requires items > 2 && resources > 0
  {
    match v
    case 1 => Link(EXISTING_ITEM, 1)
    case 2 => Link(EXISTING_ITEM, 2)
    case 3 => Link(EXISTING_ITEM + 1, 1)
    case 4 => Link(EXISTING_ITEM + 1, 2)
    case _ => GeneralResourceLink(v - 4, items, resources)
  }

  /** General links name existing items other than the two reserved ones, and existing resources. */
  lemma GeneralResourceLinkValid(v: int, items: int, resources: int)
    requires v >= 1 && items > 2 && resources > 0
    ensures
      var link := GeneralResourceLink(v, items, resources);
      1 <= link.owner <= items && link.owner != 100 && link.owner != 101 && 1 <= link.other <= resources
  {
    Placed(v, items - 2);
  }

  lemma SameResourceLink(v: int, w: int, items: int, resources: int)
    requires 1 <= v < w && items > 2 && resources > 0
    ensures (GeneralResourceLink(v, items, resources) == GeneralResourceLink(w, items, resources))
       <==> (Position(v, items - 2) == Position(w, items - 2)
             && (Round(w, items - 2) - Round(v, items - 2)) % resources == 0)
  {
    var n := items - 2;
    if Position(v, n) == Position(w, n) {
      SameRemainder(Position(w, n) + Round(w, n), Position(v, n) + Round(v, n), resources);
    }
  }

  predicate ResourceLinksDistinct(count: int, items: int, resources: int)
    requires items > 2 && resources > 0
  {
    forall v, w :: 1 <= v < w <= count ==> ResourceLinkAt(v, items, resources) != ResourceLinkAt(w, items, resources)
  }

  lemma GeneralLinksDiffer(v: int, w: int, items: int, resources: int)
    requires 1 <= v < w <= (items - 2) * resources && items > 2 && resources > 0
    ensures GeneralResourceLink(v, items, resources) != GeneralResourceLink(w, items, resources)
  {
    var n := items - 2;
    SameResourceLink(v, w, items, resources);
    if Position(v, n) == Position(w, n) {
      SamePosition(v, w, n);
      FewRounds(v, w, n, resources);
      NotMultiple(Round(w, n) - Round(v, n), resources);
    }
  }

  /** All resource links are distinct in (item, resource) exactly when the general ones fit
      in (items - 2) * resources. */
  lemma ResourceRowsDistinct(count: int, items: int, resources: int)
    requires items > 2 && resources > 0
    ensures ResourceLinksDistinct(count, items, resources) <==> count - 4 <= (items - 2) * resources
  {
    var n := items - 2;
    if count - 4 <= n * resources {
      forall v, w | 1 <= v < w <= count
        ensures ResourceLinkAt(v, items, resources) != ResourceLinkAt(w, items, resources) {
        if w > 4 {
          GeneralResourceLinkValid(w - 4, items, resources);
          if v > 4 { GeneralLinksDiffer(v - 4, w - 4, items, resources); }
        }
      }
    } else {
      Multiples(resources, n);
      var w := 1 + resources * n;
      RoundsApart(1, n, resources);
      SameResourceLink(1, w, items, resources);
      assert resources % resources == 0 by { Digits(resources, 1, 0, resources); }
      assert ResourceLinkAt(1 + 4, items, resources) == ResourceLinkAt(w + 4, items, resources);
    }
  }

  // ---- article tags ----

  datatype TagProfile = TagProfile(articles: int, tags: int, links: int, matchPercentage: int) {
    /** The smallest tables the formulas are defined for. */
    predicate Valid() {
      articles > 0 && tags > PYDANTIC_ID && links >= 0 && 0 < matchPercentage <= PERCENTAGE_BASE
    }

    function Divisor(): int
      requires Valid()
    {
      PERCENTAGE_BASE / matchPercentage
    }

    function TargetLinks(): int
      requires Valid()
    {
      DivisorPositive();
      var a, b := articles / Divisor(), links / Divisor();
      if a <= b then a else b
    }

    lemma DivisorPositive()
      requires Valid()
      ensures Divisor() >= 1
    {
      var q := PERCENTAGE_BASE / matchPercentage;
      assert PERCENTAGE_BASE == matchPercentage * q + PERCENTAGE_BASE % matchPercentage;
      Multiples(q, matchPercentage);
    }
  }

  function GeneralTagLink(v: int, p: TagProfile): Link
    requires p.Valid()
  {
    Link(Position(v, p.articles) + 1,
         (v + Round(v, p.articles) * ROUND_STRIDE) % (p.tags - PYDANTIC_ID) + GENERAL_TAG_START_ID)
  }

  function TagLinkAt(v: int, p: TagProfile): Link
    requires p.Valid()
  {
    if v <= p.TargetLinks() then Link(v * p.Divisor(), POSTGRESQL_ID) else GeneralTagLink(v - p.TargetLinks(), p)
  }

  lemma TargetCount(p: TagProfile)
    requires p.Valid()
    ensures 0 <= p.TargetLinks() <= p.links && p.TargetLinks() * p.Divisor() <= p.articles
  {
    p.DivisorPositive();
    Quotient(p.articles, p.Divisor());
    Quotient(p.links, p.Divisor());
    Monotone(p.TargetLinks(), p.articles / p.Divisor(), p.Divisor());
  }

  lemma Monotone(a: int, b: int, d: int)
    requires a <= b && d >= 1
    ensures a * d <= b * d
  {
    assert (b - a) * d >= 0;
    assert (b - a) * d == b * d - a * d;
  }

  lemma AtLeastItself(q: int, d: int)
    requires q >= 0 && d >= 1
    ensures q * d >= q
  {
    assert q * (d - 1) >= 0;
    assert q * d == q * (d - 1) + q;
  }

  lemma Quotient(x: int, d: int)
    requires x >= 0 && d >= 1
    ensures 0 <= x / d <= x && x / d * d <= x
  {
    var q := Round(x + 1, d);
    assert q == x / d;
    Placed(x + 1, d);
    AtLeastItself(q, d);
  }

  /** Every link names an existing article and an existing tag; only target links name the
      PostgreSQL tag. */
  lemma TagLinkValid(v: int, p: TagProfile)
    requires p.Valid() && 1 <= v <= p.links
    ensures
      var link := TagLinkAt(v, p);
      && 1 <= link.owner <= p.articles && 1 <= link.other <= p.tags
      && (link.other == 2 <==> v <= p.TargetLinks())
  {
    TargetCount(p);
    if v <= p.TargetLinks() {
      p.DivisorPositive();
      Multiples(v, p.Divisor());
      Monotone(v, p.TargetLinks(), p.Divisor());
    }
  }

  /** Rounds `d` apart collide when `d` strides of articles + 9973 come back to the same tag. */
  predicate Collides(d: int, p: TagProfile)
    requires p.Valid()
  {
    d * (p.articles + 9973) % (p.tags - 3) == 0
  }

  /** What `d` rounds add to the value that picks the tag. */
  lemma RoundStride(v: int, n: int, r: int, d: int)
    ensures (v + d * n) + (r + d) * ROUND_STRIDE - (v + r * ROUND_STRIDE) == d * (n + ROUND_STRIDE)
  {
  }

  lemma SameSlot(v: int, n: int, r: int, d: int, m: int)
    requires m > 0
    ensures ((v + d * n) + (r + d) * ROUND_STRIDE) % m == (v + r * ROUND_STRIDE) % m
      <==> d * (n + ROUND_STRIDE) % m == 0
  {
    var a, b := (v + d * n) + (r + d) * ROUND_STRIDE, v + r * ROUND_STRIDE;
    RoundStride(v, n, r, d);
    SameRemainder(a, b, m);
  }

  lemma SameTag(v: int, w: int, p: TagProfile, d: int)
    requires p.Valid() && w == v + d * p.articles && Round(w, p.articles) == Round(v, p.articles) + d
    ensures GeneralTagLink(v, p).other == GeneralTagLink(w, p).other <==> Collides(d, p)
  {
    hide Round;
    hide Position;
    SameSlot(v, p.articles, Round(v, p.articles), d, p.tags - PYDANTIC_ID);
  }

  lemma SameTagLink(v: int, w: int, p: TagProfile)
    requires p.Valid() && 1 <= v < w
    ensures (GeneralTagLink(v, p) == GeneralTagLink(w, p))
       <==> (Position(v, p.articles) == Position(w, p.articles)
             && Collides(Round(w, p.articles) - Round(v, p.articles), p))
  {
    hide Collides;
    if Position(v, p.articles) == Position(w, p.articles) {
      SamePosition(v, w, p.articles);
      SameTag(v, w, p, Round(w, p.articles) - Round(v, p.articles));
    }
  }

  /** The first distance, from `d` on, at which rounds collide. */
  function FirstCollision(d: int, p: TagProfile): (first: int)
    requires p.Valid() && 1 <= d <= p.tags - PYDANTIC_ID
    ensures d <= first <= p.tags - PYDANTIC_ID && Collides(first, p)
    ensures forall e :: d <= e < first ==> !Collides(e, p)
    decreases p.tags - d
  {
    if Collides(d, p) then d
    else
      assert d < p.tags - PYDANTIC_ID by { AllTagsCollide(p); }
      FirstCollision(d + 1, p)
  }

  lemma AllTagsCollide(p: TagProfile)
    requires p.Valid()
    ensures Collides(p.tags - PYDANTIC_ID, p)
  {
    var m := p.tags - PYDANTIC_ID;
    Digits(m * (p.articles + ROUND_STRIDE), p.articles + ROUND_STRIDE, 0, m);
  }

  predicate TagLinksDistinct(p: TagProfile)
    requires p.Valid()
  {
    forall v, w :: 1 <= v < w <= p.links ==> TagLinkAt(v, p) != TagLinkAt(w, p)
  }

  lemma TagLinksDiffer(v: int, w: int, p: TagProfile)
    requires p.Valid() && 1 <= v < w <= p.links
    requires p.links - p.TargetLinks() <= p.articles * FirstCollision(1, p)
    ensures TagLinkAt(v, p) != TagLinkAt(w, p)
  {
    TagLinkValid(v, p);
    TagLinkValid(w, p);
    TargetCount(p);
    var t, n := p.TargetLinks(), p.articles;
    if w <= t {
      p.DivisorPositive();
      Multiples(w - v, p.Divisor());
      assert (w - v) * p.Divisor() == w * p.Divisor() - v * p.Divisor();
    } else if v > t {
      SameTagLink(v - t, w - t, p);
      if Position(v - t, n) == Position(w - t, n) {
        SamePosition(v - t, w - t, n);
        FewRounds(v - t, w - t, n, FirstCollision(1, p));
      }
    }
  }

  /** The tag links respect the unique constraint on (article, tag) exactly when the general
      ones stop before the first two rounds that collide. */
  lemma TagRowsDistinct(p: TagProfile)
    requires p.Valid()
    ensures TagLinksDistinct(p) <==> p.links - p.TargetLinks() <= p.articles * FirstCollision(1, p)
  {
    var t, n, first := p.TargetLinks(), p.articles, FirstCollision(1, p);
    if p.links - t <= n * first {
      forall v, w | 1 <= v < w <= p.links ensures TagLinkAt(v, p) != TagLinkAt(w, p) { TagLinksDiffer(v, w, p); }
    } else {
      TargetCount(p);
      Multiples(first, n);
      RoundsApart(1, n, first);
      var w := 1 + first * n;
      SameTagLink(1, w, p);
      assert TagLinkAt(t + 1, p) == TagLinkAt(t + w, p);
    }
  }

  // ---- the matrix structure ----

  datatype Shape = Shape(sheets: int, sections: int, subsections: int) {
    predicate Valid() {
      sheets > 0 && sections > 0 && subsections > 0
    }
  }

  function SheetOfSection(section: int, s: Shape): int
    requires s.Valid()
  {
    (section - 1) / s.sections + 1
  }

  function SectionOfSubsection(subsection: int, s: Shape): int
    requires s.Valid()
  {
    (subsection - 1) / s.subsections + 1
  }

  function SheetOfItem(v: int, s: Shape): int
    requires s.Valid()
  {
    v % s.sheets + 1
  }

  function SubsectionOfItem(v: int, s: Shape): int
    requires s.Valid()
  {
    (v % s.sheets * s.sections + v % s.sections) * s.subsections + v % s.subsections + 1
  }

  /** The subsection given to an item exists, and the structure tables lead from it to the
      item's own sheet, through the section and subsection that the item's number picks. */
  lemma ItemStructureAgrees(v: int, s: Shape)
    requires s.Valid()
    ensures
      var subsection := SubsectionOfItem(v, s);
      var section := SectionOfSubsection(subsection, s);
      && 1 <= subsection <= s.sheets * s.sections * s.subsections
      && 1 <= section <= s.sheets * s.sections
      && SheetOfSection(section, s) == SheetOfItem(v, s)
      && (section - 1) % s.sections == v % s.sections
      && (subsection - 1) % s.subsections == v % s.subsections
  {
    var sheet, section := v % s.sheets, v % s.sheets * s.sections + v % s.sections;
    Digits(section * s.subsections + v % s.subsections, section, v % s.subsections, s.subsections);
    Digits(section, sheet, v % s.sections, s.sections);
    Below(sheet, v % s.sections, s.sheets, s.sections);
    Below(section, v % s.subsections, s.sheets * s.sections, s.subsections);
  }

  /** A two-digit number stays below the product of its radices. */
  lemma Below(q: int, r: int, a: int, b: int)
    requires 0 <= q < a && 0 <= r < b
    ensures 0 <= q * b + r < a * b
  {
    Multiples(q, b);
    Multiples(a - q, b);
    assert (a - q) * b == a * b - q * b;
  }

  /** Children of one parent get different priorities, and every parent gets them all. */
  lemma SiblingPriorities(parent: int, bucket: int, child: int, n: int)
    requires n > 0 && parent >= 1 && child >= 1 && 0 <= bucket < n
    ensures ((child - 1) / n + 1 == parent && (child - 1) % n == bucket) <==> child == (parent - 1) * n + bucket + 1
  {
    Placed(child, n);
    if child == (parent - 1) * n + bucket + 1 { Digits(child - 1, parent - 1, bucket, n); }
  }
}
