/** Exactly when deleting receipts can be seen: the forgetting recorder and the one that keeps
    everything differ in their counters if and only if some visit comes too late. */
module AnalyticsRetention {
  import opened Wrappers
  import opened Analytics
  import opened AnalyticsMeaning

  // ---- which receipts a history leaves, said over its events ----

  function OwnKey(e: Event, config: Config): ReceiptKey
    requires e.Visited?
  {
    KeyOf(config, e.day, e.visit.kind, e.visit.target, e.visit.visitToken)
  }

  function VisitorKey(e: Event, config: Config): ReceiptKey
    requires e.Visited?
  {
    AudienceKey(config, e.day, e.visit.visitorToken)
  }

  /** A view makes its own receipt and, if it is a new site view, its visitor's. With `forget`, a
      visit whose window begins after the receipt's day deletes it. */
  function Has(events: seq<Event>, config: Config, key: ReceiptKey, forget: bool): bool {
    if events == [] then false
    else
      var n := |events| - 1;
      var before, e := events[..n], events[n];
      if !e.Visited? then Has(before, config, key, forget)
      else if e.visit.event.View? && key == OwnKey(e, config) then true
      else if e.visit.event.View? && e.visit.kind.Site? && key == VisitorKey(e, config)
              && !Has(before, config, OwnKey(e, config), forget) then true
      else Has(before, config, key, forget) && !(forget && key.day < e.day - config.retention)
  }

  /** The receipt has been engaged, with nothing forgotten. */
  function EngagedYet(events: seq<Event>, config: Config, key: ReceiptKey): bool {
    if events == [] then false
    else
      var n := |events| - 1;
      var before, e := events[..n], events[n];
      || EngagedYet(before, config, key)
      || (e.Visited? && e.visit.event.Engaged? && key == OwnKey(e, config) && Has(before, config, key, false))
  }

  /** A receipt was made and is deleted. */
  predicate Deleted(before: seq<Event>, config: Config, key: ReceiptKey) {
    Has(before, config, key, false) && !Has(before, config, key, true)
  }

  // ---- the three ways to be late ----

  /** The view was counted, its receipt is deleted: it is counted again. */
  predicate CountsViewAgain(before: seq<Event>, e: Event, config: Config) {
    e.Visited? && e.visit.event.View? && Deleted(before, config, OwnKey(e, config))
  }

  /** A new site view of a visitor whose receipt is deleted: the visitor is counted again. */
  predicate CountsVisitorAgain(before: seq<Event>, e: Event, config: Config) {
    && e.Visited? && e.visit.event.View? && e.visit.kind.Site?
    && !Has(before, config, OwnKey(e, config), false) && Deleted(before, config, VisitorKey(e, config))
  }

  /** The first engagement after the receipt of its view is deleted: it is lost. */
  predicate LosesEngagement(before: seq<Event>, e: Event, config: Config) {
    && e.Visited? && e.visit.event.Engaged?
    && Deleted(before, config, OwnKey(e, config)) && !EngagedYet(before, config, OwnKey(e, config))
  }

  predicate Late(before: seq<Event>, e: Event, config: Config) {
    CountsViewAgain(before, e, config) || CountsVisitorAgain(before, e, config) || LosesEngagement(before, e, config)
  }

  predicate SomeLate(events: seq<Event>, config: Config) {
    exists i :: 0 <= i < |events| && Late(events[..i], events[i], config)
  }

  predicate SomeViewAgain(events: seq<Event>, config: Config) {
    exists i :: 0 <= i < |events| && CountsViewAgain(events[..i], events[i], config)
  }

  // ---- the tables hold exactly those receipts ----

  lemma KeptReceipts(st: State, v: Visit, on: Day, config: Config, key: ReceiptKey)
    ensures
      var own := KeyOf(config, on, v.kind, v.target, v.visitToken);
      key in RecordKept(st, v, on, config).receipts
      <==> (|| key in st.receipts
            || (v.event.View? && key == own)
            || (v.event.View? && v.kind.Site? && own !in st.receipts && key == AudienceKey(config, on, v.visitorToken)))
  {
    hide KeyOf;
    hide AudienceKey;
    hide Increment;
  }

  lemma KeptEngaged(st: State, v: Visit, on: Day, config: Config, key: ReceiptKey)
    requires key in RecordKept(st, v, on, config).receipts
    ensures
      var own := KeyOf(config, on, v.kind, v.target, v.visitToken);
      RecordKept(st, v, on, config).receipts[key].engaged
      <==> (key in st.receipts && (st.receipts[key].engaged || (v.event.Engaged? && key == own)))
  {
    hide KeyOf;
    hide AudienceKey;
    hide Increment;
  }

  /** The state a visit finds: with `forget`, the receipts outside its window are deleted first. */
  function Facing(st: State, on: Day, config: Config, forget: bool): State {
    if forget then st.(receipts := Expire(st.receipts, on, config.retention)) else st
  }

  lemma StepIsKept(st: State, e: Event, config: Config, forget: bool)
    requires e.Visited?
    ensures Step(st, e, config, forget) == RecordKept(Facing(st, e.day, config, forget), e.visit, e.day, config)
    ensures Facing(st, e.day, config, forget).daily == st.daily
    ensures forall k: ReceiptKey ::
      k in Facing(st, e.day, config, forget).receipts
      <==> k in st.receipts && !(forget && k.day < e.day - config.retention)
    ensures forall k: ReceiptKey ::
      k in Facing(st, e.day, config, forget).receipts ==>
        Facing(st, e.day, config, forget).receipts[k] == st.receipts[k]
  {
    hide RecordKept;
  }

  lemma {:induction false} HasIsReceipt(events: seq<Event>, config: Config, key: ReceiptKey, forget: bool)
    ensures key in Run(events, config, forget).receipts <==> Has(events, config, key, forget)
    decreases |events|
  {
    hide RecordKept;
    hide Facing;
    if events != [] {
      var n := |events| - 1;
      var before, e := events[..n], events[n];
      HasIsReceipt(before, config, key, forget);
      if e.Visited? {
        var st := Run(before, config, forget);
        HasIsReceipt(before, config, OwnKey(e, config), forget);
        StepIsKept(st, e, config, forget);
        KeptReceipts(Facing(st, e.day, config, forget), e.visit, e.day, config, key);
      }
    }
  }

  lemma {:induction false} EngagedIsYet(events: seq<Event>, config: Config, key: ReceiptKey)
    ensures Has(events, config, key, false) ==> key in Run(events, config, false).receipts
    ensures Has(events, config, key, false) ==>
      (Run(events, config, false).receipts[key].engaged <==> EngagedYet(events, config, key))
    ensures EngagedYet(events, config, key) ==> Has(events, config, key, false)
    decreases |events|
  {
    hide RecordKept;
    if events != [] {
      var n := |events| - 1;
      var before, e := events[..n], events[n];
      HasIsReceipt(events, config, key, false);
      HasIsReceipt(before, config, key, false);
      EngagedIsYet(before, config, key);
      if e.Visited? && Has(events, config, key, false) {
        KeptEngaged(Run(before, config, false), e.visit, e.day, config, key);
      }
    }
  }

  // ---- what the forgetting recorder still has ----

  /** Of the receipts of views, the forgetting recorder has some and no others. */
  lemma {:induction false} OwnKept(events: seq<Event>, config: Config, key: ReceiptKey)
    requires key.scope != AUDIENCE_SCOPE
    ensures Has(events, config, key, true) ==> Has(events, config, key, false)
    decreases |events|
  {
    if events != [] { OwnKept(events[..|events| - 1], config, key); }
  }

  /** Some of the receipts, and those of views with the same contents. */
  ghost predicate Within(few: map<ReceiptKey, Receipt>, all: map<ReceiptKey, Receipt>) {
    forall k :: k in few ==> k in all && (k.scope != AUDIENCE_SCOPE ==> few[k] == all[k])
  }

  lemma KeepsWithin(few: State, all: State, v: Visit, on: Day, config: Config)
    requires Within(few.receipts, all.receipts) && Admitted(v)
    requires
      var own := KeyOf(config, on, v.kind, v.target, v.visitToken);
      v.event.View? && own in all.receipts ==> own in few.receipts
    ensures Within(RecordKept(few, v, on, config).receipts, RecordKept(all, v, on, config).receipts)
  {
    hide RecordKept;
    hide KeyOf;
    var less, more := RecordKept(few, v, on, config).receipts, RecordKept(all, v, on, config).receipts;
    NotAudience(v.kind, v.target);
    forall k | k in less ensures k in more && (k.scope != AUDIENCE_SCOPE ==> less[k] == more[k]) {
      if k.scope == AUDIENCE_SCOPE {
        AudienceReceiptStep(few, v, on, config, k);
        AudienceReceiptStep(all, v, on, config, k);
      } else {
        ReceiptStep(few, v, on, config, k);
        ReceiptStep(all, v, on, config, k);
      }
    }
  }

  lemma SplitLast(events: seq<Event>, config: Config)
    requires events != []
    ensures
      var n := |events| - 1;
      && (AllAdmitted(events) ==> AllAdmitted(events[..n]) && (events[n].Visited? ==> Admitted(events[n].visit)))
      && (SomeLate(events, config) <==> SomeLate(events[..n], config) || Late(events[..n], events[n], config))
      && (SomeViewAgain(events, config)
          <==> SomeViewAgain(events[..n], config) || CountsViewAgain(events[..n], events[n], config))
  {
    hide Late;
    hide CountsViewAgain;
    hide Admitted;
    var n := |events| - 1;
    assert events[n] in events && forall x :: x in events[..n] ==> x in events;
    assert forall i :: 0 <= i < n ==> events[..n][..i] == events[..i] && events[..n][i] == events[i];
    if SomeLate(events[..n], config) {
      var i :| 0 <= i < n && Late(events[..n][..i], events[..n][i], config);
      assert Late(events[..i], events[i], config);
    }
    if SomeViewAgain(events[..n], config) {
      var i :| 0 <= i < n && CountsViewAgain(events[..n][..i], events[..n][i], config);
      assert CountsViewAgain(events[..i], events[i], config);
    }
  }

  /** As long as no view is counted again, what the forgetting recorder still has is right. */
  lemma {:induction false} KeptIsWithin(events: seq<Event>, config: Config)
    requires AllAdmitted(events) && !SomeViewAgain(events, config)
    ensures Within(Run(events, config, true).receipts, Run(events, config, false).receipts)
    decreases |events|
  {
    hide RecordKept;
    hide SomeViewAgain;
    hide AllAdmitted;
    hide Admitted;
    hide Facing;
    if events != [] {
      var n := |events| - 1;
      var before, e := events[..n], events[n];
      SplitLast(events, config);
      KeptIsWithin(before, config);
      if e.Visited? {
        var few, all := Run(before, config, true), Run(before, config, false);
        StepIsKept(few, e, config, true);
        HasIsReceipt(before, config, OwnKey(e, config), true);
        HasIsReceipt(before, config, OwnKey(e, config), false);
        KeepsWithin(Facing(few, e.day, config, true), all, e.visit, e.day, config);
      }
    }
  }

  // ---- totals over the sources ----

  function Total(daily: map<CounterKey, Counters>, day: Day, kind: Kind, target: string): Counters {
    var of := (s: Source) => Read(daily, CounterKey(day, kind, target, s));
    Sum(Sum(Sum(of(Direct), of(Internal)), Sum(of(Search), of(Social))), Sum(of(External), of(Unknown)))
  }

  lemma OneOfSix(s: Source)
    ensures s == Direct || s == Internal || s == Search || s == Social || s == External || s == Unknown
  {
  }

  /** A visit to this target on this day. */
  predicate To(e: Event, day: Day, kind: Kind, target: string) {
    e.Visited? && e.day == day && e.visit.kind == kind && e.visit.target == target
  }

  predicate Views(st: State, e: Event, config: Config) {
    e.Visited? && e.visit.event.View? && OwnKey(e, config) !in st.receipts
  }

  predicate Engages(st: State, e: Event, config: Config) {
    && e.Visited? && e.visit.event.Engaged?
    && OwnKey(e, config) in st.receipts && !st.receipts[OwnKey(e, config)].engaged
  }

  predicate Brings(st: State, e: Event, config: Config) {
    Views(st, e, config) && e.visit.kind.Site? && VisitorKey(e, config) !in st.receipts
  }

  lemma TotalViews(st: State, e: Event, config: Config, day: Day, kind: Kind, target: string)
    requires e.Visited?
    ensures Total(RecordKept(st, e.visit, e.day, config).daily, day, kind, target).views
         == Total(st.daily, day, kind, target).views + One(Views(st, e, config) && To(e, day, kind, target))
  {
    hide RecordKept;
    hide Read;
    hide KeyOf;
    OneOfSix(e.visit.source);
    ViewStep(st, e.visit, e.day, config, CounterKey(day, kind, target, Direct));
    ViewStep(st, e.visit, e.day, config, CounterKey(day, kind, target, Internal));
    ViewStep(st, e.visit, e.day, config, CounterKey(day, kind, target, Search));
    ViewStep(st, e.visit, e.day, config, CounterKey(day, kind, target, Social));
    ViewStep(st, e.visit, e.day, config, CounterKey(day, kind, target, External));
    ViewStep(st, e.visit, e.day, config, CounterKey(day, kind, target, Unknown));
  }

  lemma TotalEngaged(st: State, e: Event, config: Config, day: Day, kind: Kind, target: string)
    requires e.Visited?
    ensures Total(RecordKept(st, e.visit, e.day, config).daily, day, kind, target).engaged
         == Total(st.daily, day, kind, target).engaged + One(Engages(st, e, config) && To(e, day, kind, target))
  {
    hide RecordKept;
    hide Read;
    hide KeyOf;
    if OwnKey(e, config) in st.receipts { OneOfSix(st.receipts[OwnKey(e, config)].source); }
    EngagedStep(st, e.visit, e.day, config, CounterKey(day, kind, target, Direct));
    EngagedStep(st, e.visit, e.day, config, CounterKey(day, kind, target, Internal));
    EngagedStep(st, e.visit, e.day, config, CounterKey(day, kind, target, Search));
    EngagedStep(st, e.visit, e.day, config, CounterKey(day, kind, target, Social));
    EngagedStep(st, e.visit, e.day, config, CounterKey(day, kind, target, External));
    EngagedStep(st, e.visit, e.day, config, CounterKey(day, kind, target, Unknown));
  }

  lemma TotalVisitors(st: State, e: Event, config: Config, day: Day)
    requires e.Visited? && Admitted(e.visit)
    ensures Total(RecordKept(st, e.visit, e.day, config).daily, day, Site, AUDIENCE_TARGET).visitors
         == Total(st.daily, day, Site, AUDIENCE_TARGET).visitors + One(Brings(st, e, config) && e.day == day)
  {
    hide RecordKept;
    hide Read;
    hide KeyOf;
    hide AudienceKey;
    NotAudience(e.visit.kind, e.visit.target);
    OneOfSix(e.visit.source);
    VisitorStep(st, e.visit, e.day, config, CounterKey(day, Site, AUDIENCE_TARGET, Direct));
    VisitorStep(st, e.visit, e.day, config, CounterKey(day, Site, AUDIENCE_TARGET, Internal));
    VisitorStep(st, e.visit, e.day, config, CounterKey(day, Site, AUDIENCE_TARGET, Search));
    VisitorStep(st, e.visit, e.day, config, CounterKey(day, Site, AUDIENCE_TARGET, Social));
    VisitorStep(st, e.visit, e.day, config, CounterKey(day, Site, AUDIENCE_TARGET, External));
    VisitorStep(st, e.visit, e.day, config, CounterKey(day, Site, AUDIENCE_TARGET, Unknown));
  }

  /** Reactions and suggestions leave the three totals alone. */
  lemma TotalCounted(st: State, e: Event, config: Config, forget: bool, day: Day, kind: Kind, target: string)
    requires e.Counted?
    ensures
      var was, after := Total(st.daily, day, kind, target), Total(Step(st, e, config, forget).daily, day, kind, target);
      after.views == was.views && after.engaged == was.engaged && after.visitors == was.visitors
  {
    hide Read;
    hide Increment;
    var delta := ZERO.(reactions := e.reactions, suggestions := e.suggestions);
    Incremented(st.daily, e.key, delta, CounterKey(day, kind, target, Direct));
    Incremented(st.daily, e.key, delta, CounterKey(day, kind, target, Internal));
    Incremented(st.daily, e.key, delta, CounterKey(day, kind, target, Search));
    Incremented(st.daily, e.key, delta, CounterKey(day, kind, target, Social));
    Incremented(st.daily, e.key, delta, CounterKey(day, kind, target, External));
    Incremented(st.daily, e.key, delta, CounterKey(day, kind, target, Unknown));
  }

  // ---- by how much the totals differ ----

  function ViewsAgain(events: seq<Event>, config: Config, day: Day, kind: Kind, target: string): nat {
    if events == [] then 0
    else
      var n := |events| - 1;
      ViewsAgain(events[..n], config, day, kind, target)
      + if CountsViewAgain(events[..n], events[n], config) && To(events[n], day, kind, target) then 1 else 0
  }

  function EngagementsLost(events: seq<Event>, config: Config, day: Day, kind: Kind, target: string): nat {
    if events == [] then 0
    else
      var n := |events| - 1;
      EngagementsLost(events[..n], config, day, kind, target)
      + if LosesEngagement(events[..n], events[n], config) && To(events[n], day, kind, target) then 1 else 0
  }

  function VisitorsAgain(events: seq<Event>, config: Config, day: Day): nat {
    if events == [] then 0
    else
      var n := |events| - 1;
      VisitorsAgain(events[..n], config, day)
      + if CountsVisitorAgain(events[..n], events[n], config) && events[n].day == day then 1 else 0
  }

  /** In every run the forgetting recorder's views of a target on a day are those of the other one
      and the views counted again. */
  lemma {:induction false} ViewsCountedAgain(events: seq<Event>, config: Config, day: Day, kind: Kind, target: string)
    requires AllAdmitted(events)
    ensures Total(Run(events, config, true).daily, day, kind, target).views
         == Total(Run(events, config, false).daily, day, kind, target).views
           + ViewsAgain(events, config, day, kind, target)
    decreases |events|
  {
    hide RecordKept;
    hide Total;
    hide AllAdmitted;
    hide Facing;
    hide SomeLate;
    hide Has;
    if events == [] {
    } else {
      var n := |events| - 1;
      var before, e := events[..n], events[n];
      SplitLast(events, config);
      ViewsCountedAgain(before, config, day, kind, target);
      var few, all := Run(before, config, true), Run(before, config, false);
      if e.Visited? {
        StepIsKept(few, e, config, true);
        NotAudience(e.visit.kind, e.visit.target);
        HasIsReceipt(before, config, OwnKey(e, config), true);
        HasIsReceipt(before, config, OwnKey(e, config), false);
        OwnKept(before, config, OwnKey(e, config));
        TotalViews(Facing(few, e.day, config, true), e, config, day, kind, target);
        TotalViews(all, e, config, day, kind, target);
      } else {
        TotalCounted(few, e, config, true, day, kind, target);
        TotalCounted(all, e, config, false, day, kind, target);
      }
    }
  }

  /** As long as no view is counted again, the forgetting recorder's engaged views are those of the
      other one less the lost ones. */
  lemma {:induction false} EngagementsLostExactly(events: seq<Event>, config: Config, day: Day, kind: Kind,
                                                  target: string)
    requires AllAdmitted(events) && !SomeViewAgain(events, config)
    ensures Total(Run(events, config, false).daily, day, kind, target).engaged
         == Total(Run(events, config, true).daily, day, kind, target).engaged
            + EngagementsLost(events, config, day, kind, target)
    decreases |events|
  {
    hide RecordKept;
    hide Total;
    hide AllAdmitted;
    hide SomeViewAgain;
    hide Facing;
    hide Has;
    hide EngagedYet;
    if events != [] {
      var n := |events| - 1;
      var before, e := events[..n], events[n];
      SplitLast(events, config);
      EngagementsLostExactly(before, config, day, kind, target);
      var few, all := Run(before, config, true), Run(before, config, false);
      if e.Visited? {
        KeptIsWithin(before, config);
        StepIsKept(few, e, config, true);
        NotAudience(e.visit.kind, e.visit.target);
        HasIsReceipt(before, config, OwnKey(e, config), true);
        HasIsReceipt(before, config, OwnKey(e, config), false);
        EngagedIsYet(before, config, OwnKey(e, config));
        TotalEngaged(Facing(few, e.day, config, true), e, config, day, kind, target);
        TotalEngaged(all, e, config, day, kind, target);
      } else {
        TotalCounted(few, e, config, true, day, kind, target);
        TotalCounted(all, e, config, false, day, kind, target);
      }
    }
  }

  /** As long as no view is counted again, the forgetting recorder's visitors of a day are those of
      the other one and the ones counted again. */
  lemma {:induction false} VisitorsCountedAgain(events: seq<Event>, config: Config, day: Day)
    requires AllAdmitted(events) && !SomeViewAgain(events, config)
    ensures Total(Run(events, config, true).daily, day, Site, AUDIENCE_TARGET).visitors
         == Total(Run(events, config, false).daily, day, Site, AUDIENCE_TARGET).visitors
           + VisitorsAgain(events, config, day)
    decreases |events|
  {
    hide RecordKept;
    hide Total;
    hide AllAdmitted;
    hide SomeViewAgain;
    hide Facing;
    hide Has;
    if events != [] {
      var n := |events| - 1;
      var before, e := events[..n], events[n];
      SplitLast(events, config);
      VisitorsCountedAgain(before, config, day);
      var few, all := Run(before, config, true), Run(before, config, false);
      if e.Visited? {
        KeptIsWithin(before, config);
        StepIsKept(few, e, config, true);
        NotAudience(e.visit.kind, e.visit.target);
        HasIsReceipt(before, config, OwnKey(e, config), true);
        HasIsReceipt(before, config, OwnKey(e, config), false);
        HasIsReceipt(before, config, VisitorKey(e, config), true);
        HasIsReceipt(before, config, VisitorKey(e, config), false);
        TotalVisitors(Facing(few, e.day, config, true), e, config, day);
        TotalVisitors(all, e, config, day);
      } else {
        TotalCounted(few, e, config, true, day, Site, AUDIENCE_TARGET);
        TotalCounted(all, e, config, false, day, Site, AUDIENCE_TARGET);
      }
    }
  }

  // ---- a late visit is seen, and nothing else is ----

  lemma {:induction false} AgainCounts(events: seq<Event>, config: Config, i: nat)
    requires i < |events| && events[i].Visited?
    ensures
      var before, e := events[..i], events[i];
      && (CountsViewAgain(before, e, config) ==> ViewsAgain(events, config, e.day, e.visit.kind, e.visit.target) > 0)
      && (LosesEngagement(before, e, config) ==>
          EngagementsLost(events, config, e.day, e.visit.kind, e.visit.target) > 0)
      && (CountsVisitorAgain(before, e, config) ==> VisitorsAgain(events, config, e.day) > 0)
    decreases |events|
  {
    hide CountsViewAgain;
    hide LosesEngagement;
    hide Deleted;
    var n := |events| - 1;
    if i < n {
      assert events[..n][..i] == events[..i];
      AgainCounts(events[..n], config, i);
    }
  }

  lemma LateIsSeen(events: seq<Event>, config: Config)
    requires AllAdmitted(events) && SomeLate(events, config)
    ensures Run(events, config, true).daily != Run(events, config, false).daily
  {
    hide Run;
    hide AllAdmitted;
    hide Total;
    hide Has;
    hide EngagedYet;
    if SomeViewAgain(events, config) {
      var i :| 0 <= i < |events| && CountsViewAgain(events[..i], events[i], config);
      AgainCounts(events, config, i);
      ViewsCountedAgain(events, config, events[i].day, events[i].visit.kind, events[i].visit.target);
    } else {
      var i :| 0 <= i < |events| && Late(events[..i], events[i], config);
      AgainCounts(events, config, i);
      EngagementsLostExactly(events, config, events[i].day, events[i].visit.kind, events[i].visit.target);
      VisitorsCountedAgain(events, config, events[i].day);
    }
  }

  /** A visit that is not late does the same to the counters of both recorders. */
  lemma SameDaily(few: State, all: State, v: Visit, on: Day, config: Config)
    requires few.daily == all.daily && Within(few.receipts, all.receipts) && Admitted(v)
    requires
      var own, visitor := KeyOf(config, on, v.kind, v.target, v.visitToken), AudienceKey(config, on, v.visitorToken);
      && (v.event.View? && own in all.receipts ==> own in few.receipts)
      && (v.event.View? && v.kind.Site? && own !in all.receipts && visitor in all.receipts ==> visitor in few.receipts)
      && (v.event.Engaged? && own in all.receipts && !all.receipts[own].engaged ==> own in few.receipts)
    ensures RecordKept(few, v, on, config).daily == RecordKept(all, v, on, config).daily
  {
    hide Scope;
    hide Digest;
    hide Increment;
    NotAudience(v.kind, v.target);
  }

  lemma {:induction false} NotLateUnseen(events: seq<Event>, config: Config)
    requires AllAdmitted(events) && !SomeLate(events, config)
    ensures Run(events, config, true).daily == Run(events, config, false).daily
    decreases |events|
  {
    hide RecordKept;
    hide AllAdmitted;
    hide SomeLate;
    hide Facing;
    hide Has;
    hide EngagedYet;
    if events != [] {
      var n := |events| - 1;
      var before, e := events[..n], events[n];
      SplitLast(events, config);
      NotLateUnseen(before, config);
      if e.Visited? {
        var few, all := Run(before, config, true), Run(before, config, false);
        NoViewAgain(before, config);
        KeptIsWithin(before, config);
        StepIsKept(few, e, config, true);
        HasIsReceipt(before, config, OwnKey(e, config), true);
        HasIsReceipt(before, config, OwnKey(e, config), false);
        HasIsReceipt(before, config, VisitorKey(e, config), true);
        HasIsReceipt(before, config, VisitorKey(e, config), false);
        EngagedIsYet(before, config, OwnKey(e, config));
        SameDaily(Facing(few, e.day, config, true), all, e.visit, e.day, config);
      }
    }
  }

  lemma NoViewAgain(events: seq<Event>, config: Config)
    ensures !SomeLate(events, config) ==> !SomeViewAgain(events, config)
  {
    hide Has;
    if SomeViewAgain(events, config) {
      var i :| 0 <= i < |events| && CountsViewAgain(events[..i], events[i], config);
      assert Late(events[..i], events[i], config);
    }
  }

  /** Deleting receipts changes the counters of a run if and only if some visit comes late: a view
      or a visitor counted before whose receipt is deleted, or the first engagement of a view whose
      receipt is deleted. No visit of a timely run is late. */
  lemma DiffersExactly(events: seq<Event>, config: Config)
    requires AllAdmitted(events)
    ensures Run(events, config, true).daily != Run(events, config, false).daily <==> SomeLate(events, config)
    ensures Timely(events, config.retention) ==> !SomeLate(events, config)
  {
    if Timely(events, config.retention) { PruningUnobservable(events, config); }
    if SomeLate(events, config) { LateIsSeen(events, config); } else { NotLateUnseen(events, config); }
  }
}
