/** Visit receipts and daily counters: a recorder that forgets receipts after a retention
    window, next to one that never forgets. */
module Analytics {
  import opened Wrappers

  type Day = int

  datatype Kind = Articles | Matrix | Site | Suggestions
  datatype Source = Direct | Internal | Search | Social | External | Unknown
  datatype VisitEvent = View | Engaged

  datatype Visit = Visit(kind: Kind, target: string, event: VisitEvent, source: Source, visitorToken: string,
                         visitToken: string)

  datatype ReceiptKey = ReceiptKey(day: Day, scope: string, digest: string)
  datatype Receipt = Receipt(source: Source, engaged: bool)

  datatype CounterKey = CounterKey(day: Day, kind: Kind, target: string, source: Source)
  datatype Counters = Counters(views: int, engaged: int, reactions: int, suggestions: int, visitors: int)

  /** `hmac` stands for HMAC-SHA256 under the configured secret, `iso` for date formatting. */
  datatype Config = Config(hmac: string -> string, iso: Day -> string, retention: nat)

  datatype State = State(receipts: map<ReceiptKey, Receipt>, daily: map<CounterKey, Counters>)

  const AUDIENCE_SCOPE := "Site:audience"
  const AUDIENCE_TARGET := "_audience"
  const ZERO := Counters(0, 0, 0, 0, 0)

  function KindName(kind: Kind): string {
    match kind
    case Articles => "Articles"
    case Matrix => "Matrix"
    case Site => "Site"
    case Suggestions => "Suggestions"
  }

  function Scope(kind: Kind, target: string): string {
    KindName(kind) + ":" + target
  }

  function Digest(config: Config, day: Day, scope: string, token: string): string {
    config.hmac(config.iso(day) + ":" + scope + ":" + token)
  }

  function KeyOf(config: Config, day: Day, kind: Kind, target: string, token: string): ReceiptKey {
    ReceiptKey(day, Scope(kind, target), Digest(config, day, Scope(kind, target), token))
  }

  function AudienceKey(config: Config, day: Day, token: string): ReceiptKey {
    ReceiptKey(day, AUDIENCE_SCOPE, Digest(config, day, AUDIENCE_SCOPE, token))
  }

  // ---- the storage, as functions of its tables ----

  function Sum(a: Counters, b: Counters): Counters {
    Counters(a.views + b.views, a.engaged + b.engaged, a.reactions + b.reactions,
             a.suggestions + b.suggestions, a.visitors + b.visitors)
  }

  function Read(daily: map<CounterKey, Counters>, key: CounterKey): Counters {
    if key in daily then daily[key] else ZERO
  }

  /** INSERT ... ON CONFLICT DO UPDATE adding the deltas. */
  function Increment(daily: map<CounterKey, Counters>, key: CounterKey, delta: Counters): map<CounterKey, Counters> {
    daily[key := Sum(Read(daily, key), delta)]
  }

  function RecordView(st: State, v: Visit, day: Day, config: Config): State {
    var key := KeyOf(config, day, v.kind, v.target, v.visitToken);
    if key in st.receipts then st
    else
      var counted := State(st.receipts[key := Receipt(v.source, false)],
                           Increment(st.daily, CounterKey(day, v.kind, v.target, v.source), ZERO.(views := 1)));
      if v.kind.Site? then RecordVisitor(counted, v, day, config) else counted
  }

  function RecordVisitor(st: State, v: Visit, day: Day, config: Config): State {
    var key := AudienceKey(config, day, v.visitorToken);
    if key in st.receipts then st
    else State(st.receipts[key := Receipt(v.source, false)],
               Increment(st.daily, CounterKey(day, Site, AUDIENCE_TARGET, v.source), ZERO.(visitors := 1)))
  }

  function RecordEngaged(st: State, v: Visit, day: Day, config: Config): State {
    var key := KeyOf(config, day, v.kind, v.target, v.visitToken);
    if key !in st.receipts || st.receipts[key].engaged then st
    else State(st.receipts[key := st.receipts[key].(engaged := true)],
               Increment(st.daily, CounterKey(day, v.kind, v.target, st.receipts[key].source), ZERO.(engaged := 1)))
  }

  function RecordKept(st: State, v: Visit, day: Day, config: Config): State {
    if v.event.View? then RecordView(st, v, day, config) else RecordEngaged(st, v, day, config)
  }

  /** DELETE of the receipts that are older than the retention window of `day`. */
  function Expire(receipts: map<ReceiptKey, Receipt>, day: Day, retention: nat): map<ReceiptKey, Receipt> {
    map k | k in receipts && !(k.day < day - retention) :: receipts[k]
  }

  function Record(st: State, v: Visit, day: Day, config: Config): State {
    RecordKept(st.(receipts := Expire(st.receipts, day, config.retention)), v, day, config)
  }

  // ---- the storage as it runs ----

  const PUBLIC_PAGES := {"articles", "matrix", "about", "updates", "contacts", "sitemap"}

  /** A matrix visit is recorded under the id of the item its link names. */
  function Resolved(v: Visit, item: Option<string>): Visit {
    if v.kind.Matrix? && item.Some? then v.(target := item.value) else v
  }

  class Storage {
    var receipts: map<ReceiptKey, Receipt>
    var daily: map<CounterKey, Counters>

    function Tables(): State
      reads this
    {
      State(receipts, daily)
    }

    constructor ()
      ensures Tables() == State(map[], map[])
    {
      receipts, daily := map[], map[];
    }

    method Add(key: CounterKey, delta: Counters)
      modifies this`daily
      ensures daily == Increment(old(daily), key, delta)
    {
      if key in daily {
        daily := daily[key := Sum(daily[key], delta)];
      } else {
        daily := daily[key := delta];
      }
    }

    method InsertReceipt(key: ReceiptKey, source: Source) returns (inserted: bool)
      modifies this`receipts
      ensures inserted <==> key !in old(receipts)
      ensures receipts == if inserted then old(receipts)[key := Receipt(source, false)] else old(receipts)
    {
      inserted := key !in receipts;
      if inserted {
        receipts := receipts[key := Receipt(source, false)];
      }
    }

    method RecordVisit(v: Visit, day: Day, config: Config)
      modifies this
      ensures Tables() == Record(old(Tables()), v, day, config)
    {
      receipts := Expire(receipts, day, config.retention);
      var key := KeyOf(config, day, v.kind, v.target, v.visitToken);
      if v.event.View? {
        var receipt := InsertReceipt(key, v.source);
        if !receipt { return; }
        Add(CounterKey(day, v.kind, v.target, v.source), ZERO.(views := 1));
        if v.kind.Site? {
          var visitor := InsertReceipt(AudienceKey(config, day, v.visitorToken), v.source);
          if visitor {
            Add(CounterKey(day, Site, AUDIENCE_TARGET, v.source), ZERO.(visitors := 1));
          }
        }
      } else if key in receipts && !receipts[key].engaged {
        var source := receipts[key].source;
        receipts := receipts[key := receipts[key].(engaged := true)];
        Add(CounterKey(day, v.kind, v.target, source), ZERO.(engaged := 1));
      }
    }

    /** The use case in front of the storage: site pages are checked, matrix targets are
        replaced by the id of the available item they name (`item`, if there is one). */
    method RecordPublicVisit(v: Visit, item: Option<string>, day: Day, config: Config) returns (accepted: bool)
      modifies this
      ensures accepted <==> (v.kind.Site? ==> v.target in PUBLIC_PAGES) && (v.kind.Matrix? ==> item.Some?)
      ensures !accepted ==> Tables() == old(Tables())
      ensures accepted ==> Admitted(Resolved(v, item))
      ensures accepted ==> Tables() == Record(old(Tables()), Resolved(v, item), day, config)
      ensures accepted ==>
        var target := if v.kind.Matrix? then item.value else v.target;
        Counts(old(Tables()), Tables(), v, target, day, config)
    {
      hide Record;
      var visit := v;
      if v.kind.Matrix? {
        if item.None? { return false; }
        visit := v.(target := item.value);
      } else if v.kind.Site? {
        if v.target !in PUBLIC_PAGES { return false; }
      }
      ghost var before := Tables();
      RecordVisit(visit, day, config);
      RecordCounts(before, visit, day, config);
      return true;
    }
  }

  /** A counter of the target of the visit or, for a site page, of the day's audience. */
  predicate Touches(v: Visit, target: string, day: Day, c: CounterKey) {
    && c.day == day
    && ((c.kind == v.kind && c.target == target) || (v.kind.Site? && c.kind.Site? && c.target == AUDIENCE_TARGET))
  }

  /** Recording visit `v` under `target` touches no other counters. A view whose token has no receipt
      there adds one to the views of its source and leaves a receipt; an engagement adds one to
      the engaged views of the source its receipt names, once. */
  ghost predicate Counts(before: State, after: State, v: Visit, target: string, day: Day, config: Config) {
    var key := KeyOf(config, day, v.kind, target, v.visitToken);
    && (forall c :: !Touches(v, target, day, c) ==> Read(after.daily, c) == Read(before.daily, c))
    && (v.event.View? ==>
          && key in after.receipts
          && var c := CounterKey(day, v.kind, target, v.source);
             Read(after.daily, c).views == Read(before.daily, c).views + if key in before.receipts then 0 else 1)
    && (v.event.Engaged? && key in before.receipts ==>
          && key in after.receipts && after.receipts[key] == before.receipts[key].(engaged := true)
          && var c := CounterKey(day, v.kind, target, before.receipts[key].source);
             Read(after.daily, c).engaged
             == Read(before.daily, c).engaged + if before.receipts[key].engaged then 0 else 1)
  }

  lemma ViewCounts(st: State, v: Visit, day: Day, config: Config)
    requires v.event.View?
    ensures Counts(st, RecordKept(st, v, day, config), v, v.target, day, config)
  {
    hide KeyOf;
    hide AudienceKey;
    hide Increment;
    hide Read;
    var viewed, seen := CounterKey(day, v.kind, v.target, v.source), CounterKey(day, Site, AUDIENCE_TARGET, v.source);
    var daily := Increment(st.daily, viewed, ZERO.(views := 1));
    forall c ensures c != viewed ==> Read(daily, c) == Read(st.daily, c) {
      Incremented(st.daily, viewed, ZERO.(views := 1), c);
    }
    forall c ensures c != seen ==> Read(Increment(daily, seen, ZERO.(visitors := 1)), c) == Read(daily, c) {
      Incremented(daily, seen, ZERO.(visitors := 1), c);
    }
    Incremented(st.daily, viewed, ZERO.(views := 1), viewed);
    Incremented(daily, seen, ZERO.(visitors := 1), viewed);
  }

  lemma EngagedCounts(st: State, v: Visit, day: Day, config: Config)
    requires v.event.Engaged?
    ensures Counts(st, RecordKept(st, v, day, config), v, v.target, day, config)
  {
    hide KeyOf;
    hide Increment;
    hide Read;
    var key := KeyOf(config, day, v.kind, v.target, v.visitToken);
    if key in st.receipts {
      var counter := CounterKey(day, v.kind, v.target, st.receipts[key].source);
      var daily := Increment(st.daily, counter, ZERO.(engaged := 1));
      forall c ensures c != counter ==> Read(daily, c) == Read(st.daily, c) {
        Incremented(st.daily, counter, ZERO.(engaged := 1), c);
      }
      Incremented(st.daily, counter, ZERO.(engaged := 1), counter);
    }
  }

  lemma RecordCounts(st: State, v: Visit, day: Day, config: Config)
    ensures Counts(st, Record(st, v, day, config), v, v.target, day, config)
  {
    hide RecordKept;
    hide Scope;
    hide Digest;
    hide Read;
    var kept := st.(receipts := Expire(st.receipts, day, config.retention));
    if v.event.View? { ViewCounts(kept, v, day, config); } else { EngagedCounts(kept, v, day, config); }
  }

  /** Two links to the same item share one receipt: a second view with the same token, by either
      link, counts nothing. */
  lemma SameItemCountsOnce(st: State, v: Visit, w: Visit, item: string, day: Day, config: Config)
    requires v.kind.Matrix? && w.kind.Matrix? && v.event.View? && w.event.View? && v.visitToken == w.visitToken
    ensures
      var once := Record(st, Resolved(v, Some(item)), day, config);
      Record(once, Resolved(w, Some(item)), day, config).daily == once.daily
  {
    hide Scope;
    hide Digest;
  }

  /** What the use case lets through: a site visit names a public page. */
  predicate Admitted(v: Visit) {
    v.kind.Site? ==> v.target in PUBLIC_PAGES
  }

  // ---- runs ----

  /** Besides visits, reactions and suggestions add to the same counters. */
  datatype Event =
    | Visited(visit: Visit, day: Day)
    | Counted(key: CounterKey, reactions: int, suggestions: int)

  function Step(st: State, e: Event, config: Config, forget: bool): State {
    match e
    case Visited(v, day) => if forget then Record(st, v, day, config) else RecordKept(st, v, day, config)
    case Counted(key, r, s) => st.(daily := Increment(st.daily, key, ZERO.(reactions := r, suggestions := s)))
  }

  function Run(events: seq<Event>, config: Config, forget: bool): State {
    if events == [] then State(map[], map[])
    else Step(Run(events[..|events| - 1], config, forget), events[|events| - 1], config, forget)
  }

  /** No visit so far lies more than the retention beyond `day`. */
  predicate InWindow(events: seq<Event>, retention: nat, day: Day) {
    forall e :: e in events && e.Visited? ==> day >= e.day - retention
  }

  /** Every visit's day is at least the largest day seen before it, less the retention. */
  predicate Timely(events: seq<Event>, retention: nat) {
    events == [] ||
    var n := |events| - 1;
    Timely(events[..n], retention) && (events[n].Visited? ==> InWindow(events[..n], retention, events[n].day))
  }

  // ---- pruning receipts cannot be observed ----

  predicate AgreeOn(a: map<ReceiptKey, Receipt>, b: map<ReceiptKey, Receipt>, k: ReceiptKey) {
    (k in a <==> k in b) && (k in a ==> a[k] == b[k])
  }

  lemma StepAgrees(st: State, full: State, v: Visit, day: Day, config: Config)
    requires st.daily == full.daily
    requires forall k: ReceiptKey :: k.day == day ==> AgreeOn(st.receipts, full.receipts, k)
    ensures RecordKept(st, v, day, config).daily == RecordKept(full, v, day, config).daily
    ensures forall k: ReceiptKey :: AgreeOn(st.receipts, full.receipts, k) ==>
      AgreeOn(RecordKept(st, v, day, config).receipts, RecordKept(full, v, day, config).receipts, k)
  {
    assert AgreeOn(st.receipts, full.receipts, KeyOf(config, day, v.kind, v.target, v.visitToken));
    assert AgreeOn(st.receipts, full.receipts, AudienceKey(config, day, v.visitorToken));
  }

  lemma {:induction false} ForgettingAgrees(events: seq<Event>, config: Config)
    requires Timely(events, config.retention)
    ensures Run(events, config, true).daily == Run(events, config, false).daily
    ensures forall k: ReceiptKey :: InWindow(events, config.retention, k.day) ==>
      AgreeOn(Run(events, config, true).receipts, Run(events, config, false).receipts, k)
    decreases |events|
  {
    if events != [] {
      var n := |events| - 1;
      var before, e := events[..n], events[n];
      ForgettingAgrees(before, config);
      assert events == before + [e];
      assert forall d :: InWindow(events, config.retention, d) ==> InWindow(before, config.retention, d);
      if e.Visited? {
        var st, full := Run(before, config, true), Run(before, config, false);
        StepAgrees(st.(receipts := Expire(st.receipts, e.day, config.retention)), full, e.visit, e.day, config);
      }
    }
  }

  /** Receipt pruning is unobservable: in every timely run the daily counters equal those of
      a recorder that never deletes a receipt. */
  lemma PruningUnobservable(events: seq<Event>, config: Config)
    requires Timely(events, config.retention)
    ensures Run(events, config, true).daily == Run(events, config, false).daily
  {
    ForgettingAgrees(events, config);
  }

  function ArticleView(target: string, source: Source, token: string, day: Day): Event {
    Visited(Visit(Articles, target, View, source, token, token), day)
  }

  /** A view, one after the retention has passed, and the first view again. */
  function LateRun(target: string, source: Source, token: string, later: Day): seq<Event> {
    [ArticleView(target, source, token, 0), ArticleView(target, source, token, later),
     ArticleView(target, source, token, 0)]
  }

  lemma ViewReceipts(st: State, v: Visit, day: Day, config: Config, forget: bool, k: ReceiptKey)
    requires v.event.View? && !v.kind.Site?
    ensures k in Step(st, Visited(v, day), config, forget).receipts
       <==> (|| k == KeyOf(config, day, v.kind, v.target, v.visitToken)
             || (k in st.receipts && (forget ==> k.day >= day - config.retention)))
  {
  }

  lemma KeptViewCounters(st: State, v: Visit, day: Day, config: Config, c: CounterKey)
    requires v.event.View? && !v.kind.Site?
    ensures Read(RecordKept(st, v, day, config).daily, c).views
         == Read(st.daily, c).views + (if c == CounterKey(day, v.kind, v.target, v.source)
              && KeyOf(config, day, v.kind, v.target, v.visitToken) !in st.receipts then 1 else 0)
  {
  }

  lemma ViewCounters(st: State, v: Visit, day: Day, config: Config, forget: bool, c: CounterKey)
    requires v.event.View? && !v.kind.Site?
    ensures Read(Step(st, Visited(v, day), config, forget).daily, c).views
         == Read(st.daily, c).views + (if c == CounterKey(day, v.kind, v.target, v.source)
              && KeyOf(config, day, v.kind, v.target, v.visitToken) !in st.receipts then 1 else 0)
  {
    hide RecordKept;
    var kept := if forget then st.(receipts := Expire(st.receipts, day, config.retention)) else st;
    KeptViewCounters(kept, v, day, config, c);
  }

  lemma LateRunViews(target: string, source: Source, token: string, config: Config, forget: bool)
    ensures Read(Run(LateRun(target, source, token, config.retention + 1), config, forget).daily,
                 CounterKey(0, Articles, target, source)).views == if forget then 2 else 1
  {
    hide Step;
    hide Scope;
    hide Digest;
    var v, later := Visit(Articles, target, View, source, token, token), config.retention + 1;
    var a, b := Visited(v, 0), Visited(v, later);
    var key, counter := KeyOf(config, 0, Articles, target, token), CounterKey(0, Articles, target, source);
    assert [a, b, a][..2] == [a, b] && [a, b][..1] == [a] && [a][..0] == [];
    var one := Step(State(map[], map[]), a, config, forget);
    ViewReceipts(State(map[], map[]), v, 0, config, forget, key);
    ViewCounters(State(map[], map[]), v, 0, config, forget, counter);
    var two := Step(one, b, config, forget);
    ViewReceipts(one, v, later, config, forget, key);
    ViewCounters(one, v, later, config, forget, counter);
    ViewCounters(two, v, 0, config, forget, counter);
    assert Run([a], config, forget) == one;
    assert Run([a, b], config, forget) == two;
  }

  /** One day beyond the window is too much: for every retention there is a run that is late by
      one day and in which the two recorders differ. */
  lemma LateVisitCountedTwice(config: Config, target: string, source: Source, token: string)
    ensures
      var events := LateRun(target, source, token, config.retention + 1);
      && !Timely(events, config.retention)
      && Timely(events, config.retention + 1)
      && Run(events, config, true).daily != Run(events, config, false).daily
  {
    var events := LateRun(target, source, token, config.retention + 1);
    hide Run;
    assert !InWindow(events[..2], config.retention, 0) by { assert events[1] in events[..2]; }
    assert events[..2] == [events[0], events[1]] && events[..2][..1] == [events[0]] && [events[0]][..0] == [];
    assert Timely([events[0]], config.retention + 1);
    assert Timely(events[..2], config.retention + 1);
    LateRunViews(target, source, token, config, true);
    LateRunViews(target, source, token, config, false);
  }

  // ---- counters count receipts ----

  lemma NoColon(kind: Kind, i: nat)
    requires i < |KindName(kind)|
    ensures KindName(kind)[i] != ':'
  {
    match kind
    case Articles =>
    case Matrix =>
    case Site =>
    case Suggestions =>
  }

  /** A name without a colon, a colon and a rest: the name ends at the first colon. */
  lemma SplitsOnce(a: string, x: string, b: string, y: string)
    requires a + ":" + x == b + ":" + y && |a| <= |b|
    requires forall i :: 0 <= i < |b| ==> b[i] != ':'
    ensures a == b && x == y
  {
    var s := a + ":" + x;
    assert s[|a|] == ':' && s[..|a|] == a && s[|a| + 1..] == x;
    assert s[|b|] == ':' && s[..|b|] == b && s[|b| + 1..] == y;
  }

  lemma NameInjective(k1: Kind, k2: Kind)
    requires KindName(k1) == KindName(k2)
    ensures k1 == k2
  {
    assert |KindName(k1)| == |KindName(k2)|;
  }

  lemma ScopeInjective(k1: Kind, t1: string, k2: Kind, t2: string)
    requires Scope(k1, t1) == Scope(k2, t2)
    ensures k1 == k2 && t1 == t2
  {
    hide KindName;
    forall i | 0 <= i < |KindName(k1)| ensures KindName(k1)[i] != ':' { NoColon(k1, i); }
    forall i | 0 <= i < |KindName(k2)| ensures KindName(k2)[i] != ':' { NoColon(k2, i); }
    if |KindName(k1)| <= |KindName(k2)| {
      SplitsOnce(KindName(k1), t1, KindName(k2), t2);
    } else {
      SplitsOnce(KindName(k2), t2, KindName(k1), t1);
    }
    NameInjective(k1, k2);
  }

  /** A receipt speaks for this day, scope and source (and is engaged, when `engaged` asks for it). */
  predicate Speaks(k: ReceiptKey, r: Receipt, day: Day, scope: string, source: Source, engaged: bool) {
    k.day == day && k.scope == scope && r.source == source && (engaged ==> r.engaged)
  }

  function ReceiptsOf(receipts: map<ReceiptKey, Receipt>, day: Day, scope: string, source: Source,
                      engaged: bool): set<ReceiptKey> {
    set k | k in receipts && Speaks(k, receipts[k], day, scope, source, engaged)
  }

  /** The counters of `day` for one target are what its receipts say. */
  predicate TargetTallied(st: State, day: Day, kind: Kind, target: string, source: Source) {
    var c := Read(st.daily, CounterKey(day, kind, target, source));
    && c.views == |ReceiptsOf(st.receipts, day, Scope(kind, target), source, false)|
    && c.engaged == |ReceiptsOf(st.receipts, day, Scope(kind, target), source, true)|
  }

  predicate AudienceTallied(st: State, day: Day, source: Source) {
    Read(st.daily, CounterKey(day, Site, AUDIENCE_TARGET, source)).visitors
      == |ReceiptsOf(st.receipts, day, AUDIENCE_SCOPE, source, false)|
  }

  /** The two targets that the audience bookkeeping keeps to itself. */
  predicate Reserved(kind: Kind, target: string) {
    kind.Site? && (target == "audience" || target == AUDIENCE_TARGET)
  }

  /** Storing one receipt changes a tally by that receipt's own share in it. */
  lemma StoreReceipt(receipts: map<ReceiptKey, Receipt>, key: ReceiptKey, r: Receipt, day: Day, scope: string,
                     s: Source, engaged: bool)
    ensures
      |ReceiptsOf(receipts[key := r], day, scope, s, engaged)|
      == |ReceiptsOf(receipts, day, scope, s, engaged)|
         + (if Speaks(key, r, day, scope, s, engaged) then 1 else 0)
         - (if key in receipts && Speaks(key, receipts[key], day, scope, s, engaged) then 1 else 0)
  {
    var before, after := ReceiptsOf(receipts, day, scope, s, engaged),
                         ReceiptsOf(receipts[key := r], day, scope, s, engaged);
    assert key in before <==> key in receipts && Speaks(key, receipts[key], day, scope, s, engaged);
    assert key in after <==> Speaks(key, r, day, scope, s, engaged);
    assert before - {key} == after - {key};
    SameExcept(before, after, key);
  }

  lemma SameExcept<T>(a: set<T>, b: set<T>, key: T)
    requires a - {key} == b - {key}
    ensures |b| - (if key in b then 1 else 0) == |a| - (if key in a then 1 else 0)
  {
    var others := a - {key};
    assert a == if key in a then others + {key} else others;
    assert b == if key in b then others + {key} else others;
  }

  /** A new receipt and the counter it adds to, as one step. */
  function Count(st: State, key: ReceiptKey, r: Receipt, counter: CounterKey, delta: Counters): State {
    State(st.receipts[key := r], Increment(st.daily, counter, delta))
  }

  lemma Incremented(daily: map<CounterKey, Counters>, key: CounterKey, delta: Counters, c: CounterKey)
    ensures Read(Increment(daily, key, delta), c) == if c == key then Sum(Read(daily, c), delta) else Read(daily, c)
  {
  }

  lemma ViewKeepsTarget(st: State, key: ReceiptKey, kind0: Kind, target0: string, source0: Source,
                        day: Day, kind: Kind, target: string, source: Source)
    requires key !in st.receipts && key.scope == Scope(kind0, target0)
    requires TargetTallied(st, day, kind, target, source)
    ensures TargetTallied(Count(st, key, Receipt(source0, false), CounterKey(key.day, kind0, target0, source0),
                                ZERO.(views := 1)),
                          day, kind, target, source)
  {
    hide Scope;
    hide ReceiptsOf;
    hide Increment;
    hide Read;
    if Scope(kind0, target0) == Scope(kind, target) { ScopeInjective(kind0, target0, kind, target); }
    StoreReceipt(st.receipts, key, Receipt(source0, false), day, Scope(kind, target), source, false);
    StoreReceipt(st.receipts, key, Receipt(source0, false), day, Scope(kind, target), source, true);
    Incremented(st.daily, CounterKey(key.day, kind0, target0, source0), ZERO.(views := 1),
                CounterKey(day, kind, target, source));
  }

  lemma EngagementKeepsTarget(st: State, key: ReceiptKey, kind0: Kind, target0: string,
                              day: Day, kind: Kind, target: string, source: Source)
    requires key in st.receipts && !st.receipts[key].engaged && key.scope == Scope(kind0, target0)
    requires TargetTallied(st, day, kind, target, source)
    ensures
      var r := st.receipts[key];
      TargetTallied(Count(st, key, r.(engaged := true), CounterKey(key.day, kind0, target0, r.source),
                          ZERO.(engaged := 1)),
                    day, kind, target, source)
  {
    hide Scope;
    hide ReceiptsOf;
    hide Increment;
    hide Read;
    var r := st.receipts[key];
    if Scope(kind0, target0) == Scope(kind, target) { ScopeInjective(kind0, target0, kind, target); }
    StoreReceipt(st.receipts, key, r.(engaged := true), day, Scope(kind, target), source, false);
    StoreReceipt(st.receipts, key, r.(engaged := true), day, Scope(kind, target), source, true);
    Incremented(st.daily, CounterKey(key.day, kind0, target0, r.source), ZERO.(engaged := 1),
                CounterKey(day, kind, target, source));
  }

  lemma VisitorKeepsTarget(st: State, key: ReceiptKey, source0: Source, day: Day, kind: Kind, target: string,
                           source: Source)
    requires key !in st.receipts && key.scope == AUDIENCE_SCOPE && !Reserved(kind, target)
    requires TargetTallied(st, day, kind, target, source)
    ensures TargetTallied(Count(st, key, Receipt(source0, false), CounterKey(key.day, Site, AUDIENCE_TARGET, source0),
                                ZERO.(visitors := 1)),
                          day, kind, target, source)
  {
    NotAudience(kind, target);
    StoreReceipt(st.receipts, key, Receipt(source0, false), day, Scope(kind, target), source, false);
    StoreReceipt(st.receipts, key, Receipt(source0, false), day, Scope(kind, target), source, true);
  }

  lemma VisitorKeepsAudience(st: State, key: ReceiptKey, source0: Source, day: Day, source: Source)
    requires key !in st.receipts && key.scope == AUDIENCE_SCOPE && AudienceTallied(st, day, source)
    ensures AudienceTallied(Count(st, key, Receipt(source0, false),
                                  CounterKey(key.day, Site, AUDIENCE_TARGET, source0), ZERO.(visitors := 1)),
                            day, source)
  {
    StoreReceipt(st.receipts, key, Receipt(source0, false), day, AUDIENCE_SCOPE, source, false);
  }

  lemma OtherKeepsAudience(st: State, key: ReceiptKey, r: Receipt, counter: CounterKey, delta: Counters, day: Day,
                           source: Source)
    requires key.scope != AUDIENCE_SCOPE && delta.visitors == 0 && AudienceTallied(st, day, source)
    ensures AudienceTallied(Count(st, key, r, counter, delta), day, source)
  {
    StoreReceipt(st.receipts, key, r, day, AUDIENCE_SCOPE, source, false);
  }

  /** Only the reserved site target shares the audience scope. */
  lemma NotAudience(kind: Kind, target: string)
    requires !(kind.Site? && target == "audience")
    ensures Scope(kind, target) != AUDIENCE_SCOPE
  {
    assert AUDIENCE_SCOPE == Scope(Site, "audience");
    if Scope(kind, target) == AUDIENCE_SCOPE { ScopeInjective(kind, target, Site, "audience"); }
  }

  lemma RecordKeepsTarget(st: State, v: Visit, on: Day, config: Config, day: Day, kind: Kind, target: string,
                          source: Source)
    requires !Reserved(kind, target) && TargetTallied(st, day, kind, target, source)
    ensures TargetTallied(RecordKept(st, v, on, config), day, kind, target, source)
  {
    hide TargetTallied;
    var key := KeyOf(config, on, v.kind, v.target, v.visitToken);
    if v.event.Engaged? {
      if key in st.receipts && !st.receipts[key].engaged {
        EngagementKeepsTarget(st, key, v.kind, v.target, day, kind, target, source);
      }
    } else if key !in st.receipts {
      ViewKeepsTarget(st, key, v.kind, v.target, v.source, day, kind, target, source);
      var counted := Count(st, key, Receipt(v.source, false), CounterKey(on, v.kind, v.target, v.source),
                           ZERO.(views := 1));
      var visitor := AudienceKey(config, on, v.visitorToken);
      if v.kind.Site? && visitor !in counted.receipts {
        VisitorKeepsTarget(counted, visitor, v.source, day, kind, target, source);
      }
    }
  }

  lemma RecordKeepsAudience(st: State, v: Visit, on: Day, config: Config, day: Day, source: Source)
    requires Admitted(v) && AudienceTallied(st, day, source)
    ensures AudienceTallied(RecordKept(st, v, on, config), day, source)
  {
    hide AudienceTallied;
    NotAudience(v.kind, v.target);
    var key := KeyOf(config, on, v.kind, v.target, v.visitToken);
    if v.event.Engaged? {
      if key in st.receipts && !st.receipts[key].engaged {
        var r := st.receipts[key];
        OtherKeepsAudience(st, key, r.(engaged := true), CounterKey(on, v.kind, v.target, r.source),
                           ZERO.(engaged := 1), day, source);
      }
    } else if key !in st.receipts {
      OtherKeepsAudience(st, key, Receipt(v.source, false), CounterKey(on, v.kind, v.target, v.source),
                         ZERO.(views := 1), day, source);
      var counted := Count(st, key, Receipt(v.source, false), CounterKey(on, v.kind, v.target, v.source),
                           ZERO.(views := 1));
      var visitor := AudienceKey(config, on, v.visitorToken);
      if v.kind.Site? && visitor !in counted.receipts {
        VisitorKeepsAudience(counted, visitor, v.source, day, source);
      }
    }
  }

  lemma ExpireKeepsDay(receipts: map<ReceiptKey, Receipt>, on: Day, retention: nat, day: Day, scope: string,
                       source: Source, engaged: bool)
    requires day >= on - retention
    ensures ReceiptsOf(Expire(receipts, on, retention), day, scope, source, engaged)
      == ReceiptsOf(receipts, day, scope, source, engaged)
  {
  }

  predicate AllAdmitted(events: seq<Event>) {
    forall e :: e in events && e.Visited? ==> Admitted(e.visit)
  }

  /** While a day's receipts are kept, its counters count them: views per scope and source,
      engaged ones, and visitors. A recorder that never forgets keeps every day. */
  lemma {:induction false} CountersCountReceipts(events: seq<Event>, config: Config, forget: bool, day: Day,
                                                 source: Source, kind: Kind, target: string)
    requires AllAdmitted(events) && (forget ==> InWindow(events, config.retention, day))
    ensures !Reserved(kind, target) ==> TargetTallied(Run(events, config, forget), day, kind, target, source)
    ensures AudienceTallied(Run(events, config, forget), day, source)
    decreases |events|
  {
    hide TargetTallied;
    hide AudienceTallied;
    hide Step;
    hide Reserved;
    hide Admitted;
    var n := |events| - 1;
    if events == [] {
      TalliedEmpty(day, kind, target, source);
    } else {
      var before, e := events[..n], events[n];
      assert e in events && forall x :: x in before ==> x in events;
      CountersCountReceipts(before, config, forget, day, source, kind, target);
      StepKeepsTallies(Run(before, config, forget), e, config, forget, day, source, kind, target);
    }
  }

  lemma TalliedEmpty(day: Day, kind: Kind, target: string, source: Source)
    ensures TargetTallied(State(map[], map[]), day, kind, target, source)
    ensures AudienceTallied(State(map[], map[]), day, source)
  {
    assert ReceiptsOf(map[], day, Scope(kind, target), source, false) == {};
    assert ReceiptsOf(map[], day, Scope(kind, target), source, true) == {};
    assert ReceiptsOf(map[], day, AUDIENCE_SCOPE, source, false) == {};
  }

  lemma ExpireKeepsTallies(st: State, on: Day, retention: nat, day: Day, source: Source, kind: Kind, target: string)
    requires day >= on - retention
    ensures TargetTallied(st, day, kind, target, source)
       ==> TargetTallied(st.(receipts := Expire(st.receipts, on, retention)), day, kind, target, source)
    ensures AudienceTallied(st, day, source) ==>
      AudienceTallied(st.(receipts := Expire(st.receipts, on, retention)), day, source)
  {
    ExpireKeepsDay(st.receipts, on, retention, day, Scope(kind, target), source, false);
    ExpireKeepsDay(st.receipts, on, retention, day, Scope(kind, target), source, true);
    ExpireKeepsDay(st.receipts, on, retention, day, AUDIENCE_SCOPE, source, false);
  }

  lemma StepKeepsTallies(st: State, e: Event, config: Config, forget: bool, day: Day, source: Source, kind: Kind,
                         target: string)
    requires e.Visited? ==> Admitted(e.visit) && (forget ==> day >= e.day - config.retention)
    requires AudienceTallied(st, day, source)
    requires !Reserved(kind, target) ==> TargetTallied(st, day, kind, target, source)
    ensures !Reserved(kind, target) ==> TargetTallied(Step(st, e, config, forget), day, kind, target, source)
    ensures AudienceTallied(Step(st, e, config, forget), day, source)
  {
    match e
    case Visited(v, on) =>
      hide RecordKept;
      hide TargetTallied;
      hide AudienceTallied;
      var kept := if forget then st.(receipts := Expire(st.receipts, on, config.retention)) else st;
      if forget { ExpireKeepsTallies(st, on, config.retention, day, source, kind, target); }
      if !Reserved(kind, target) { RecordKeepsTarget(kept, v, on, config, day, kind, target, source); }
      RecordKeepsAudience(kept, v, on, config, day, source);
    case Counted(_, _, _) =>
  }

  // ---- engaged views never exceed views ----

  /** The receipts of this day, scope and source that are not engaged yet. */
  function PendingOf(receipts: map<ReceiptKey, Receipt>, day: Day, scope: string, source: Source): set<ReceiptKey> {
    set k | k in receipts && Speaks(k, receipts[k], day, scope, source, false) && !receipts[k].engaged
  }

  /** Every engagement counted, and every one that may still come, has a view of its own. */
  predicate Backed(st: State, day: Day, kind: Kind, target: string, source: Source) {
    var c := Read(st.daily, CounterKey(day, kind, target, source));
    0 <= c.engaged && c.engaged + |PendingOf(st.receipts, day, Scope(kind, target), source)| <= c.views
  }

  lemma StorePending(receipts: map<ReceiptKey, Receipt>, key: ReceiptKey, r: Receipt, day: Day, scope: string,
                     s: Source)
    ensures
      |PendingOf(receipts[key := r], day, scope, s)|
      == |PendingOf(receipts, day, scope, s)|
         + (if Speaks(key, r, day, scope, s, false) && !r.engaged then 1 else 0)
         - (if key in PendingOf(receipts, day, scope, s) then 1 else 0)
  {
    var before, after := PendingOf(receipts, day, scope, s), PendingOf(receipts[key := r], day, scope, s);
    assert key in after <==> Speaks(key, r, day, scope, s, false) && !r.engaged;
    assert before - {key} == after - {key};
    SameExcept(before, after, key);
  }

  lemma ViewKeepsBacked(st: State, key: ReceiptKey, kind0: Kind, target0: string, source0: Source,
                        day: Day, kind: Kind, target: string, source: Source)
    requires key !in st.receipts && key.scope == Scope(kind0, target0) && Backed(st, day, kind, target, source)
    ensures
      var counter := CounterKey(key.day, kind0, target0, source0);
      Backed(Count(st, key, Receipt(source0, false), counter, ZERO.(views := 1)), day, kind, target, source)
  {
    hide Scope;
    hide Increment;
    hide Read;
    if Scope(kind0, target0) == Scope(kind, target) { ScopeInjective(kind0, target0, kind, target); }
    StorePending(st.receipts, key, Receipt(source0, false), day, Scope(kind, target), source);
    var counter := CounterKey(key.day, kind0, target0, source0);
    Incremented(st.daily, counter, ZERO.(views := 1), CounterKey(day, kind, target, source));
  }

  lemma EngagementKeepsBacked(st: State, key: ReceiptKey, kind0: Kind, target0: string,
                              day: Day, kind: Kind, target: string, source: Source)
    requires key in st.receipts && !st.receipts[key].engaged && key.scope == Scope(kind0, target0)
    requires Backed(st, day, kind, target, source)
    ensures
      var r := st.receipts[key];
      var counter := CounterKey(key.day, kind0, target0, r.source);
      Backed(Count(st, key, r.(engaged := true), counter, ZERO.(engaged := 1)), day, kind, target, source)
  {
    hide Scope;
    hide Increment;
    hide Read;
    var r := st.receipts[key];
    if Scope(kind0, target0) == Scope(kind, target) { ScopeInjective(kind0, target0, kind, target); }
    StorePending(st.receipts, key, r.(engaged := true), day, Scope(kind, target), source);
    var counter := CounterKey(key.day, kind0, target0, r.source);
    Incremented(st.daily, counter, ZERO.(engaged := 1), CounterKey(day, kind, target, source));
  }

  lemma VisitorKeepsBacked(st: State, key: ReceiptKey, source0: Source, day: Day, kind: Kind, target: string,
                           source: Source)
    requires key !in st.receipts && key.scope == AUDIENCE_SCOPE && !Reserved(kind, target)
    requires Backed(st, day, kind, target, source)
    ensures
      var counter := CounterKey(key.day, Site, AUDIENCE_TARGET, source0);
      Backed(Count(st, key, Receipt(source0, false), counter, ZERO.(visitors := 1)), day, kind, target, source)
  {
    hide Scope;
    hide Increment;
    hide Read;
    NotAudience(kind, target);
    StorePending(st.receipts, key, Receipt(source0, false), day, Scope(kind, target), source);
    var counter := CounterKey(key.day, Site, AUDIENCE_TARGET, source0);
    Incremented(st.daily, counter, ZERO.(visitors := 1), CounterKey(day, kind, target, source));
  }

  lemma RecordKeepsBacked(st: State, v: Visit, on: Day, config: Config, day: Day, kind: Kind, target: string,
                          source: Source)
    requires !Reserved(kind, target) && Backed(st, day, kind, target, source)
    ensures Backed(RecordKept(st, v, on, config), day, kind, target, source)
  {
    hide Backed;
    hide Reserved;
    var key := KeyOf(config, on, v.kind, v.target, v.visitToken);
    if v.event.Engaged? {
      if key in st.receipts && !st.receipts[key].engaged {
        EngagementKeepsBacked(st, key, v.kind, v.target, day, kind, target, source);
      }
    } else if key !in st.receipts {
      ViewKeepsBacked(st, key, v.kind, v.target, v.source, day, kind, target, source);
      var counter := CounterKey(on, v.kind, v.target, v.source);
      var counted := Count(st, key, Receipt(v.source, false), counter, ZERO.(views := 1));
      var visitor := AudienceKey(config, on, v.visitorToken);
      if v.kind.Site? && visitor !in counted.receipts {
        VisitorKeepsBacked(counted, visitor, v.source, day, kind, target, source);
      }
    }
  }

  lemma ExpireKeepsBacked(st: State, on: Day, retention: nat, day: Day, kind: Kind, target: string, source: Source)
    requires Backed(st, day, kind, target, source)
    ensures Backed(st.(receipts := Expire(st.receipts, on, retention)), day, kind, target, source)
  {
    var all := PendingOf(st.receipts, day, Scope(kind, target), source);
    var left := PendingOf(Expire(st.receipts, on, retention), day, Scope(kind, target), source);
    assert left <= all;
    assert all == left + (all - left);
  }

  lemma StepKeepsBacked(st: State, e: Event, config: Config, forget: bool, day: Day, kind: Kind, target: string,
                        source: Source)
    requires !Reserved(kind, target) && Backed(st, day, kind, target, source)
    ensures Backed(Step(st, e, config, forget), day, kind, target, source)
  {
    match e
    case Visited(v, on) =>
      if forget { ExpireKeepsBacked(st, on, config.retention, day, kind, target, source); }
      var kept := if forget then st.(receipts := Expire(st.receipts, on, config.retention)) else st;
      RecordKeepsBacked(kept, v, on, config, day, kind, target, source);
    case Counted(_, _, _) =>
  }

  lemma {:induction false} RunBacked(events: seq<Event>, config: Config, forget: bool, day: Day, kind: Kind,
                                     target: string, source: Source)
    requires !Reserved(kind, target)
    ensures Backed(Run(events, config, forget), day, kind, target, source)
    decreases |events|
  {
    if events == [] {
      assert PendingOf(map[], day, Scope(kind, target), source) == {};
    } else {
      var n := |events| - 1;
      RunBacked(events[..n], config, forget, day, kind, target, source);
      StepKeepsBacked(Run(events[..n], config, forget), events[n], config, forget, day, kind, target, source);
    }
  }

  /** In every run, late visits and all, engaged views never exceed views, on any day and for any
      target and source, whether or not receipts are forgotten. */
  lemma EngagedWithinViews(events: seq<Event>, config: Config, forget: bool, key: CounterKey)
    requires !Reserved(key.kind, key.target)
    ensures
      var counters := Read(Run(events, config, forget).daily, key);
      0 <= counters.engaged <= counters.views
  {
    RunBacked(events, config, forget, key.day, key.kind, key.target, key.source);
  }
}
