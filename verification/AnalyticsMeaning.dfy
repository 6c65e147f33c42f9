/** What the daily counters mean, said without receipts: every visit token lives through a
    small history of its own, and a counter is the number of tokens with a given outcome. */
module AnalyticsMeaning {
  import opened Wrappers
  import opened Analytics

  /** HMAC-SHA256 is taken to be free of collisions. */
  ghost predicate Injective(config: Config) {
    forall a, b :: config.hmac(a) == config.hmac(b) ==> a == b
  }

  /** The last event of a history is a visit of this token to this target on this day. */
  predicate Concerns(e: Event, day: Day, kind: Kind, target: string, token: string) {
    e.Visited? && e.day == day && e.visit.kind == kind && e.visit.target == target && e.visit.visitToken == token
  }

  /** One token at one target on one day: its first view fixes the source for good, and the
      first engagement after that view marks it. */
  function Outcome(events: seq<Event>, day: Day, kind: Kind, target: string, token: string): Option<Receipt> {
    if events == [] then None
    else
      var n := |events| - 1;
      var earlier := Outcome(events[..n], day, kind, target, token);
      if !Concerns(events[n], day, kind, target, token) then earlier
      else if events[n].visit.event.View? then
        if earlier.None? then Some(Receipt(events[n].visit.source, false)) else earlier
      else
        if earlier.Some? then Some(earlier.value.(engaged := true)) else None
  }

  /** One visitor on one day: the source of the first site view of theirs that was not a
      repetition of an earlier one. */
  function Visitor(events: seq<Event>, day: Day, visitor: string): Option<Source> {
    if events == [] then None
    else
      var n := |events| - 1;
      var earlier, e := Visitor(events[..n], day, visitor), events[n];
      if earlier.None? && NewSiteView(events[..n], e, day) && e.visit.visitorToken == visitor
      then Some(e.visit.source) else earlier
  }

  predicate NewSiteView(before: seq<Event>, e: Event, day: Day) {
    && e.Visited? && e.day == day && e.visit.event.View? && e.visit.kind.Site?
    && Outcome(before, day, Site, e.visit.target, e.visit.visitToken).None?
  }

  function Tokens(events: seq<Event>): set<string> {
    set e | e in events && e.Visited? :: e.visit.visitToken
  }

  function Visitors(events: seq<Event>): set<string> {
    set e | e in events && e.Visited? :: e.visit.visitorToken
  }

  predicate Shows(outcome: Option<Receipt>, source: Source, engaged: bool) {
    outcome.Some? && outcome.value.source == source && (engaged ==> outcome.value.engaged)
  }

  function TokensShowing(events: seq<Event>, c: CounterKey, engaged: bool): set<string> {
    set t | t in Tokens(events) && Shows(Outcome(events, c.day, c.kind, c.target, t), c.source, engaged)
  }

  function VisitorsFrom(events: seq<Event>, day: Day, source: Source): set<string> {
    set t | t in Visitors(events) && Visitor(events, day, t) == Some(source)
  }

  // ---- receipts are outcomes ----

  lemma SameKey(config: Config, d1: Day, k1: Kind, t1: string, tok1: string, d2: Day, k2: Kind, t2: string,
                tok2: string)
    requires Injective(config) && KeyOf(config, d1, k1, t1, tok1) == KeyOf(config, d2, k2, t2, tok2)
    ensures d1 == d2 && k1 == k2 && t1 == t2 && tok1 == tok2
  {
    ScopeInjective(k1, t1, k2, t2);
    SameToken(config, d1, Scope(k1, t1), tok1, tok2);
  }

  lemma SameToken(config: Config, day: Day, scope: string, a: string, b: string)
    requires Injective(config) && Digest(config, day, scope, a) == Digest(config, day, scope, b)
    ensures a == b
  {
    var prefix := config.iso(day) + ":" + scope + ":";
    assert (prefix + a)[|prefix|..] == a && (prefix + b)[|prefix|..] == b;
  }

  function At(receipts: map<ReceiptKey, Receipt>, key: ReceiptKey): Option<Receipt> {
    if key in receipts then Some(receipts[key]) else None
  }

  /** The receipt of a visit after one more visit, when it is not the visitor's own receipt. */
  lemma ReceiptStep(st: State, v: Visit, on: Day, config: Config, key: ReceiptKey)
    requires key.scope != AUDIENCE_SCOPE
    ensures
      var own := KeyOf(config, on, v.kind, v.target, v.visitToken);
      At(RecordKept(st, v, on, config).receipts, key)
      == if key != own then At(st.receipts, key)
         else if v.event.View?
           then (if own in st.receipts then At(st.receipts, key) else Some(Receipt(v.source, false)))
         else if own in st.receipts then Some(st.receipts[own].(engaged := true)) else None
  {
    hide Scope;
    hide Digest;
  }

  lemma {:induction false} ReceiptsAreOutcomes(events: seq<Event>, config: Config, day: Day, kind: Kind, target: string,
                                               token: string)
    requires Injective(config) && !(kind.Site? && target == "audience")
    ensures At(Run(events, config, false).receipts, KeyOf(config, day, kind, target, token))
      == Outcome(events, day, kind, target, token)
    decreases |events|
  {
    hide RecordKept;
    if events != [] {
      var n := |events| - 1;
      var before, e := events[..n], events[n];
      ReceiptsAreOutcomes(before, config, day, kind, target, token);
      if e.Visited? {
        var v, key := e.visit, KeyOf(config, day, kind, target, token);
        NotAudience(kind, target);
        ReceiptStep(Run(before, config, false), v, e.day, config, key);
        if KeyOf(config, e.day, v.kind, v.target, v.visitToken) == key {
          SameKey(config, e.day, v.kind, v.target, v.visitToken, day, kind, target, token);
        }
      }
    }
  }

  // ---- counters are numbers of tokens ----

  function One(b: bool): int { if b then 1 else 0 }

  /** Counter `c` after a visit: unchanged, or one more view, visitor or engagement. */
  lemma CounterSteps(st: State, v: Visit, on: Day, config: Config, c: CounterKey)
    ensures
      var own := KeyOf(config, on, v.kind, v.target, v.visitToken);
      var was, viewed, seen := Read(st.daily, c), CounterKey(on, v.kind, v.target, v.source),
                               CounterKey(on, Site, AUDIENCE_TARGET, v.source);
      var one := if c == viewed then Sum(was, ZERO.(views := 1)) else was;
      Read(RecordKept(st, v, on, config).daily, c) ==
        if v.event.View? then
          if own in st.receipts then was
          else if v.kind.Site?
            && AudienceKey(config, on, v.visitorToken) !in st.receipts[own := Receipt(v.source, false)] && c == seen
          then Sum(one, ZERO.(visitors := 1)) else one
        else if own in st.receipts && !st.receipts[own].engaged
          && c == CounterKey(on, v.kind, v.target, st.receipts[own].source)
        then Sum(was, ZERO.(engaged := 1)) else was
  {
    hide KeyOf;
    hide AudienceKey;
    hide Increment;
    hide Read;
    var own := KeyOf(config, on, v.kind, v.target, v.visitToken);
    Incremented(st.daily, CounterKey(on, v.kind, v.target, v.source), ZERO.(views := 1), c);
    Incremented(Increment(st.daily, CounterKey(on, v.kind, v.target, v.source), ZERO.(views := 1)),
                CounterKey(on, Site, AUDIENCE_TARGET, v.source), ZERO.(visitors := 1), c);
    if own in st.receipts {
      Incremented(st.daily, CounterKey(on, v.kind, v.target, st.receipts[own].source), ZERO.(engaged := 1), c);
    }
  }

  lemma ViewStep(st: State, v: Visit, on: Day, config: Config, c: CounterKey)
    ensures Read(RecordKept(st, v, on, config).daily, c).views == Read(st.daily, c).views
      + One(v.event.View? && KeyOf(config, on, v.kind, v.target, v.visitToken) !in st.receipts
            && c == CounterKey(on, v.kind, v.target, v.source))
  {
    hide KeyOf;
    hide Increment;
    hide Read;
    CounterSteps(st, v, on, config, c);
  }

  lemma EngagedStep(st: State, v: Visit, on: Day, config: Config, c: CounterKey)
    ensures
      var own := KeyOf(config, on, v.kind, v.target, v.visitToken);
      Read(RecordKept(st, v, on, config).daily, c).engaged == Read(st.daily, c).engaged
      + One(v.event.Engaged? && own in st.receipts && !st.receipts[own].engaged
            && c == CounterKey(on, v.kind, v.target, st.receipts[own].source))
  {
    hide KeyOf;
    hide Increment;
    hide Read;
    CounterSteps(st, v, on, config, c);
  }

  lemma VisitorStep(st: State, v: Visit, on: Day, config: Config, c: CounterKey)
    requires Scope(v.kind, v.target) != AUDIENCE_SCOPE
    ensures Read(RecordKept(st, v, on, config).daily, c).visitors == Read(st.daily, c).visitors
      + One(v.event.View? && v.kind.Site? && KeyOf(config, on, v.kind, v.target, v.visitToken) !in st.receipts
            && AudienceKey(config, on, v.visitorToken) !in st.receipts
            && c == CounterKey(on, Site, AUDIENCE_TARGET, v.source))
  {
    hide Scope;
    hide Digest;
    hide Increment;
    hide Read;
    CounterSteps(st, v, on, config, c);
  }

  lemma {:induction false} UnseenToken(events: seq<Event>, day: Day, kind: Kind, target: string, token: string)
    requires token !in Tokens(events)
    ensures Outcome(events, day, kind, target, token) == None
    decreases |events|
  {
    if events != [] {
      var n := |events| - 1;
      assert events[n] in events && forall e :: e in events[..n] ==> e in events;
      UnseenToken(events[..n], day, kind, target, token);
    }
  }

  lemma TokensShowingStep(before: seq<Event>, e: Event, c: CounterKey, engaged: bool)
    ensures !e.Visited? ==> TokensShowing(before + [e], c, engaged) == TokensShowing(before, c, engaged)
    ensures e.Visited? ==>
      |TokensShowing(before + [e], c, engaged)| == |TokensShowing(before, c, engaged)|
        + One(Shows(Outcome(before + [e], c.day, c.kind, c.target, e.visit.visitToken), c.source, engaged))
        - One(Shows(Outcome(before, c.day, c.kind, c.target, e.visit.visitToken), c.source, engaged))
  {
    var after := before + [e];
    assert after[..|before|] == before;
    if e.Visited? {
      var t := e.visit.visitToken;
      var old_, new_ := TokensShowing(before, c, engaged), TokensShowing(after, c, engaged);
      assert e in after && forall x :: x in after <==> x in before || x == e;
      assert t in Tokens(after);
      assert forall u :: u != t ==> (u in Tokens(after) <==> u in Tokens(before));
      if t !in Tokens(before) { UnseenToken(before, c.day, c.kind, c.target, t); }
      assert t in old_ <==> Shows(Outcome(before, c.day, c.kind, c.target, t), c.source, engaged);
      assert t in new_ <==> Shows(Outcome(after, c.day, c.kind, c.target, t), c.source, engaged);
      assert old_ - {t} == new_ - {t};
      SameExcept(old_, new_, t);
    } else {
      assert Tokens(after) == Tokens(before) by {
        assert forall x :: x in after <==> x in before || x == e;
      }
    }
  }

  lemma {:induction false} ViewsCountTokens(events: seq<Event>, config: Config, c: CounterKey)
    requires Injective(config) && !(c.kind.Site? && c.target == "audience")
    ensures Read(Run(events, config, false).daily, c).views == |TokensShowing(events, c, false)|
    ensures Read(Run(events, config, false).daily, c).engaged == |TokensShowing(events, c, true)|
    decreases |events|
  {
    hide RecordKept;
    hide KeyOf;
    if events == [] {
      assert TokensShowing([], c, false) == {} == TokensShowing([], c, true);
    } else {
      var n := |events| - 1;
      var before, e := events[..n], events[n];
      assert events == before + [e];
      ViewsCountTokens(before, config, c);
      TokensShowingStep(before, e, c, false);
      TokensShowingStep(before, e, c, true);
      if e.Visited? {
        var st, v := Run(before, config, false), e.visit;
        ViewStep(st, v, e.day, config, c);
        EngagedStep(st, v, e.day, config, c);
        if v.kind == c.kind && v.target == c.target {
          ReceiptsAreOutcomes(before, config, e.day, c.kind, c.target, v.visitToken);
        }
      }
    }
  }

  // ---- visitors ----

  lemma AudienceReceiptStep(st: State, v: Visit, on: Day, config: Config, key: ReceiptKey)
    requires key.scope == AUDIENCE_SCOPE && Scope(v.kind, v.target) != AUDIENCE_SCOPE
    ensures At(RecordKept(st, v, on, config).receipts, key)
      == if v.event.View? && v.kind.Site? && KeyOf(config, on, v.kind, v.target, v.visitToken) !in st.receipts
            && key == AudienceKey(config, on, v.visitorToken) && key !in st.receipts
         then Some(Receipt(v.source, false)) else At(st.receipts, key)
  {
    hide Scope;
    hide Digest;
  }

  /** What the visitor's receipt shows: who was seen, and by which source first. */
  predicate Matches(receipt: Option<Receipt>, source: Option<Source>) {
    receipt.Some? == source.Some? && (receipt.Some? ==> receipt.value.source == source.value)
  }

  lemma VisitIsNew(before: seq<Event>, v: Visit, on: Day, config: Config)
    requires Injective(config) && Admitted(v) && v.kind.Site? && v.event.View?
    ensures KeyOf(config, on, v.kind, v.target, v.visitToken) !in Run(before, config, false).receipts
       <==> NewSiteView(before, Visited(v, on), on)
  {
    ReceiptsAreOutcomes(before, config, on, Site, v.target, v.visitToken);
  }

  /** A visit makes the receipt of exactly its own visitor, when it is a new site view. */
  lemma VisitorReceiptStep(before: seq<Event>, v: Visit, on: Day, config: Config, day: Day, visitor: string)
    requires Injective(config) && Admitted(v)
    ensures
      var st, key := Run(before, config, false), AudienceKey(config, day, visitor);
      At(RecordKept(st, v, on, config).receipts, key)
      == if NewSiteView(before, Visited(v, on), day) && v.visitorToken == visitor && key !in st.receipts
         then Some(Receipt(v.source, false)) else At(st.receipts, key)
  {
    hide RecordKept;
    hide KeyOf;
    var st, key := Run(before, config, false), AudienceKey(config, day, visitor);
    NotAudience(v.kind, v.target);
    AudienceReceiptStep(st, v, on, config, key);
    if v.kind.Site? && v.event.View? {
      VisitIsNew(before, v, on, config);
      if key == AudienceKey(config, on, v.visitorToken) {
        SameToken(config, day, AUDIENCE_SCOPE, visitor, v.visitorToken);
      }
    }
  }

  lemma {:induction false} AudienceReceiptsAreVisitors(events: seq<Event>, config: Config, day: Day, visitor: string)
    requires Injective(config) && AllAdmitted(events)
    ensures Matches(At(Run(events, config, false).receipts, AudienceKey(config, day, visitor)),
                    Visitor(events, day, visitor))
    decreases |events|
  {
    hide RecordKept;
    hide AudienceKey;
    hide Outcome;
    if events != [] {
      var n := |events| - 1;
      var before, e := events[..n], events[n];
      assert e in events && forall x :: x in before ==> x in events;
      AudienceReceiptsAreVisitors(before, config, day, visitor);
      if e.Visited? { VisitorReceiptStep(before, e.visit, e.day, config, day, visitor); }
    }
  }

  lemma {:induction false} UnseenVisitor(events: seq<Event>, day: Day, visitor: string)
    requires visitor !in Visitors(events)
    ensures Visitor(events, day, visitor) == None
    decreases |events|
  {
    if events != [] {
      var n := |events| - 1;
      assert events[n] in events && forall e :: e in events[..n] ==> e in events;
      UnseenVisitor(events[..n], day, visitor);
    }
  }

  lemma VisitorsFromStep(before: seq<Event>, e: Event, day: Day, source: Source)
    ensures !e.Visited? ==> VisitorsFrom(before + [e], day, source) == VisitorsFrom(before, day, source)
    ensures e.Visited? ==>
      |VisitorsFrom(before + [e], day, source)| == |VisitorsFrom(before, day, source)|
        + One(Visitor(before + [e], day, e.visit.visitorToken) == Some(source))
        - One(Visitor(before, day, e.visit.visitorToken) == Some(source))
  {
    var after := before + [e];
    assert after[..|before|] == before;
    assert forall x :: x in after <==> x in before || x == e;
    if e.Visited? {
      var t := e.visit.visitorToken;
      var old_, new_ := VisitorsFrom(before, day, source), VisitorsFrom(after, day, source);
      assert e in after;
      assert t in Visitors(after);
      assert forall u :: u != t ==> (u in Visitors(after) <==> u in Visitors(before));
      if t !in Visitors(before) { UnseenVisitor(before, day, t); }
      assert t in old_ <==> Visitor(before, day, t) == Some(source);
      assert old_ - {t} == new_ - {t};
      SameExcept(old_, new_, t);
    } else {
      assert Visitors(after) == Visitors(before);
    }
  }

  lemma {:induction false} VisitorsCountVisitors(events: seq<Event>, config: Config, day: Day, source: Source)
    requires Injective(config) && AllAdmitted(events)
    ensures Read(Run(events, config, false).daily, CounterKey(day, Site, AUDIENCE_TARGET, source)).visitors
         == |VisitorsFrom(events, day, source)|
    decreases |events|
  {
    hide RecordKept;
    hide KeyOf;
    hide AudienceKey;
    if events == [] {
      assert VisitorsFrom([], day, source) == {};
    } else {
      var n := |events| - 1;
      var before, e := events[..n], events[n];
      assert events == before + [e];
      VisitorsCountVisitors(before, config, day, source);
      VisitorsFromStep(before, e, day, source);
      if e.Visited? {
        var v := e.visit;
        NotAudience(v.kind, v.target);
        VisitorStep(Run(before, config, false), v, e.day, config, CounterKey(day, Site, AUDIENCE_TARGET, source));
        AudienceReceiptsAreVisitors(before, config, e.day, v.visitorToken);
        if v.kind.Site? && v.event.View? { VisitIsNew(before, v, e.day, config); }
      }
    }
  }

  // ---- reactions and suggestions ----

  function ReactionSum(events: seq<Event>, c: CounterKey): int {
    if events == [] then 0
    else
      var n := |events| - 1;
      ReactionSum(events[..n], c) + if events[n].Counted? && events[n].key == c then events[n].reactions else 0
  }

  function SuggestionSum(events: seq<Event>, c: CounterKey): int {
    if events == [] then 0
    else
      var n := |events| - 1;
      SuggestionSum(events[..n], c) + if events[n].Counted? && events[n].key == c then events[n].suggestions else 0
  }

  lemma OtherCounters(st: State, v: Visit, on: Day, config: Config, c: CounterKey)
    ensures
      var was, after := Read(st.daily, c), Read(RecordKept(st, v, on, config).daily, c);
      after.reactions == was.reactions && after.suggestions == was.suggestions
  {
    hide RecordKept;
    hide KeyOf;
    hide Read;
    CounterSteps(st, v, on, config, c);
  }

  /** Visits of no kind touch them: reactions and suggestions are the sums of what was reported,
      whether or not receipts are forgotten. */
  lemma {:induction false} ReportedAddUp(events: seq<Event>, config: Config, forget: bool, c: CounterKey)
    ensures Read(Run(events, config, forget).daily, c).reactions == ReactionSum(events, c)
    ensures Read(Run(events, config, forget).daily, c).suggestions == SuggestionSum(events, c)
    decreases |events|
  {
    hide RecordKept;
    if events != [] {
      var n := |events| - 1;
      var st, e := Run(events[..n], config, forget), events[n];
      ReportedAddUp(events[..n], config, forget, c);
      if e.Visited? {
        var kept := if forget then st.(receipts := Expire(st.receipts, e.day, config.retention)) else st;
        OtherCounters(kept, e.visit, e.day, config, c);
      }
    }
  }

  /** The meaning of the counters that the storage keeps while it forgets receipts: in every
      timely run of admitted visits, views and engaged views of a target and source are the
      numbers of tokens whose first view came from that source, all or only the engaged ones,
      and visitors are the visitors whose first site view came from it. */
  lemma CountersMeanTokens(events: seq<Event>, config: Config, c: CounterKey)
    requires Injective(config) && AllAdmitted(events) && Timely(events, config.retention)
    ensures
      var daily := Run(events, config, true).daily;
      && (!Reserved(c.kind, c.target) ==>
            && Read(daily, c).views == |TokensShowing(events, c, false)|
            && Read(daily, c).engaged == |TokensShowing(events, c, true)|)
      && Read(daily, CounterKey(c.day, Site, AUDIENCE_TARGET, c.source)).visitors
        == |VisitorsFrom(events, c.day, c.source)|
  {
    PruningUnobservable(events, config);
    if !Reserved(c.kind, c.target) { ViewsCountTokens(events, config, c); }
    VisitorsCountVisitors(events, config, c.day, c.source);
  }
}
