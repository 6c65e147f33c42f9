/** The daily quota of anonymous question suggestions: a counter that the first request of a
    day creates and that expires with the day. Times are in microseconds. */
module SuggestionQuota {
  const SECOND := 1_000_000
  const DAY := 86_400 * SECOND

  datatype Request = Request(client: string, at: int)

  /** The actor key is a digest of client and date; digests are taken not to collide. */
  datatype Key = Key(client: string, day: int)

  datatype Counter = Counter(value: nat, expiresAt: int)

  datatype Quota = Quota(allowed: bool, remaining: int)

  function KeyOf(r: Request): Key {
    Key(r.client, r.at / DAY)
  }

  function Midnight(day: int): int {
    (day + 1) * DAY
  }

  /** The whole seconds until the next UTC day; int() cuts off the rest. */
  function SecondsUntilNextDay(at: int): int {
    (Midnight(at / DAY) - at) / SECOND
  }

  // ---- the stored counters ----

  /** The value a request at `now` finds; an expired counter is gone. */
  function Found(counters: map<Key, Counter>, key: Key, now: int): nat {
    if key in counters && now < counters[key].expiresAt then counters[key].value else 0
  }

  /** INCR, and on the value 1 EXPIRE, which deletes the key at once for a ttl of zero. */
  function Incremented(counters: map<Key, Counter>, key: Key, ttl: int, now: int): map<Key, Counter> {
    var value := Found(counters, key, now) + 1;
    if value > 1 then counters[key := counters[key].(value := value)]
    else if ttl > 0 then counters[key := Counter(1, now + ttl * SECOND)]
    else counters - {key}
  }

  class Store {
    var counters: map<Key, Counter>

    constructor ()
      ensures counters == map[]
    {
      counters := map[];
    }

    method Consume(key: Key, limit: int, ttl: int, now: int) returns (quota: Quota)
      modifies this
      ensures counters == Incremented(old(counters), key, ttl, now)
      ensures quota.allowed <==> Found(old(counters), key, now) < limit
      ensures quota.remaining == if quota.allowed then limit - Found(old(counters), key, now) - 1 else 0
    {
      if key in counters && !(now < counters[key].expiresAt) {
        counters := counters - {key};
      }
      var value := 1;
      if key in counters { value := counters[key].value + 1; }
      if value == 1 {
        counters := counters[key := Counter(1, now + ttl * SECOND)];
        if ttl <= 0 { counters := counters - {key}; }
      } else {
        counters := counters[key := counters[key].(value := value)];
      }
      var left := limit - value;
      if left < 0 { left := 0; }
      quota := Quota(value <= limit, left);
    }

    method CheckCreateAllowed(r: Request, limit: int) returns (allowed: bool)
      modifies this
      ensures counters == Incremented(old(counters), KeyOf(r), SecondsUntilNextDay(r.at), r.at)
      ensures allowed <==> Found(old(counters), KeyOf(r), r.at) < limit
    {
      var quota := Consume(KeyOf(r), limit, SecondsUntilNextDay(r.at), r.at);
      allowed := quota.allowed;
    }
  }

  // ---- runs of requests by any number of clients ----

  function CountersAfter(requests: seq<Request>): map<Key, Counter> {
    if requests == [] then map[]
    else
      var n := |requests| - 1;
      Incremented(CountersAfter(requests[..n]), KeyOf(requests[n]), SecondsUntilNextDay(requests[n].at), requests[n].at)
  }

  /** How many requests of the client this one is, as the counter has it. */
  function Consumed(requests: seq<Request>, i: int): nat
    requires 0 <= i < |requests|
  {
    Found(CountersAfter(requests[..i]), KeyOf(requests[i]), requests[i].at) + 1
  }

  predicate Allowed(requests: seq<Request>, i: int, limit: int)
    requires 0 <= i < |requests|
  {
    Consumed(requests, i) <= limit
  }

  /** The quota reported with request `i`: `max(limit - consumed, 0)`. */
  function Remaining(requests: seq<Request>, i: int, limit: int): int
    requires 0 <= i < |requests|
  {
    if Consumed(requests, i) <= limit then limit - Consumed(requests, i) else 0
  }

  predicate InOrder(requests: seq<Request>) {
    forall i, j :: 0 <= i < j < |requests| ==> requests[i].at <= requests[j].at
  }

  /** The requests of one client on one day, in their order. */
  function Own(requests: seq<Request>, key: Key): seq<Request> {
    if requests == [] then []
    else
      var n := |requests| - 1;
      Own(requests[..n], key) + if KeyOf(requests[n]) == key then [requests[n]] else []
  }

  lemma {:induction false} OwnSound(requests: seq<Request>, key: Key)
    requires InOrder(requests)
    ensures InOrder(Own(requests, key)) && |Own(requests, key)| <= |requests|
    ensures forall r :: r in Own(requests, key) ==> KeyOf(r) == key && r in requests
    decreases |requests|
  {
    if requests != [] {
      var n := |requests| - 1;
      OwnSound(requests[..n], key);
      var own := Own(requests[..n], key);
      forall i | 0 <= i < |own| ensures own[i].at <= requests[n].at {
        assert own[i] in requests[..n];
      }
    }
  }

  predicate SameEntry(a: map<Key, Counter>, b: map<Key, Counter>, key: Key) {
    (key in a <==> key in b) && (key in a ==> a[key] == b[key])
  }

  /** Other clients and other days do not touch a counter. */
  lemma {:induction false} OwnCounter(requests: seq<Request>, key: Key)
    ensures SameEntry(CountersAfter(requests), CountersAfter(Own(requests, key)), key)
    decreases |requests|
  {
    if requests != [] {
      var n := |requests| - 1;
      OwnCounter(requests[..n], key);
      var own := Own(requests[..n], key);
      if KeyOf(requests[n]) == key {
        assert Own(requests, key)[..|own|] == own;
      } else {
        assert Own(requests, key) == own;
      }
    }
  }

  // ---- one client, one day ----

  /** Requests of one client on one day, in order. */
  predicate OneDay(requests: seq<Request>, key: Key) {
    InOrder(requests) && forall i :: 0 <= i < |requests| ==> KeyOf(requests[i]) == key
  }

  function Expiry(at: int): int {
    at + SecondsUntilNextDay(at) * SECOND
  }

  /** The cut-off ttl ends the counter in the last second of the day, and not after midnight. */
  lemma ExpiresInLastSecond(at: int)
    ensures
      var midnight := Midnight(at / DAY);
      && midnight - SECOND < Expiry(at) <= midnight && at <= Expiry(at)
      && midnight % DAY == 0 && midnight - DAY <= at < midnight
  {
    var rest := Midnight(at / DAY) - at;
    assert at == at / DAY * DAY + at % DAY;
    assert Midnight(at / DAY) == at / DAY * DAY + DAY;
    assert rest == rest / SECOND * SECOND + rest % SECOND;
  }

  /** From the counter's expiry on, the ttl is zero. */
  lemma NoTtlAfterExpiry(first: int, at: int)
    requires first / DAY == at / DAY && at >= Expiry(first)
    ensures SecondsUntilNextDay(at) == 0
  {
    ExpiresInLastSecond(first);
    ExpiresInLastSecond(at);
  }

  /** The counter after `requests`: it counts them all until it expires, and after that no
      request leaves one behind. */
  lemma {:induction false} CounterState(requests: seq<Request>, key: Key)
    requires OneDay(requests, key) && requests != []
    ensures
      var n, expiry, counters := |requests|, Expiry(requests[0].at), CountersAfter(requests);
      if requests[n - 1].at < expiry then key in counters && counters[key] == Counter(n, expiry) else key !in counters
    decreases |requests|
  {
    var n := |requests| - 1;
    assert KeyOf(requests[n]) == key && KeyOf(requests[0]) == key;
    if n == 0 {
      assert requests[..0] == [];
      ExpiresInLastSecond(requests[0].at);
    } else {
      CounterState(requests[..n], key);
      assert requests[n - 1].at <= requests[n].at;
      if requests[n].at >= Expiry(requests[0].at) {
        NoTtlAfterExpiry(requests[0].at, requests[n].at);
      }
    }
  }

  /** Request number `i` finds the count of the ones before it while the first counter lives,
      and a fresh count afterwards. */
  lemma ConsumedExactly(requests: seq<Request>, key: Key, i: int)
    requires OneDay(requests, key) && 0 <= i < |requests|
    ensures Consumed(requests, i) == if requests[i].at < Expiry(requests[0].at) then i + 1 else 1
  {
    assert KeyOf(requests[i]) == key;
    if i > 0 {
      CounterState(requests[..i], key);
      assert requests[i - 1].at <= requests[i].at;
    } else {
      assert requests[..0] == [];
    }
  }

  /** Every request made at least one second before midnight is counted: exactly the first
      `limit` of the day are allowed, and what remains is the unused part. */
  lemma FirstOnesAllowed(requests: seq<Request>, key: Key, i: int, limit: int)
    requires OneDay(requests, key) && 0 <= i < |requests|
    requires requests[i].at <= Midnight(key.day) - SECOND
    ensures Allowed(requests, i, limit) <==> i < limit
    ensures Remaining(requests, i, limit) == if i < limit then limit - i - 1 else 0
  {
    assert KeyOf(requests[0]) == key;
    ExpiresInLastSecond(requests[0].at);
    ConsumedExactly(requests, key, i);
  }

  /** Both requests are of one client and of one day. */
  predicate Together(a: Request, b: Request) {
    a.client == b.client && a.at / DAY == b.at / DAY
  }

  /** Of the first `n` requests, those of the client and the day of `r`. */
  function Earlier(requests: seq<Request>, n: nat, r: Request): set<int>
    requires n <= |requests|
  {
    set j | 0 <= j < n && Together(requests[j], r)
  }

  lemma {:induction false} OwnCounted(requests: seq<Request>, n: nat, r: Request)
    requires n <= |requests|
    ensures |Own(requests[..n], KeyOf(r))| == |Earlier(requests, n, r)|
  {
    if n > 0 {
      OwnCounted(requests, n - 1, r);
      assert requests[..n][..n - 1] == requests[..n - 1];
      assert Earlier(requests, n, r)
          == Earlier(requests, n - 1, r) + if Together(requests[n - 1], r) then {n - 1} else {};
    }
  }

  /** The same in a run with other clients and other days in between. */
  lemma FirstOnesAllowedAmongOthers(requests: seq<Request>, i: int, limit: int)
    requires InOrder(requests) && 0 <= i < |requests|
    requires requests[i].at <= Midnight(requests[i].at / DAY) - SECOND
    ensures
      var before := |Earlier(requests, i, requests[i])|;
      && (Allowed(requests, i, limit) <==> before < limit)
      && Remaining(requests, i, limit) == if before < limit then limit - before - 1 else 0
  {
    hide CountersAfter;
    hide Own;
    var key := KeyOf(requests[i]);
    var own := Own(requests[..i], key);
    OwnCounted(requests, i, requests[i]);
    OwnCounter(requests[..i], key);
    OwnThenOne(requests, i);
    var mine := own + [requests[i]];
    assert mine[..|own|] == own;
    FirstOnesAllowed(mine, key, |own|, limit);
  }

  /** A client's earlier requests of the day, and then this one. */
  lemma OwnThenOne(requests: seq<Request>, i: int)
    requires InOrder(requests) && 0 <= i < |requests|
    ensures OneDay(Own(requests[..i], KeyOf(requests[i])) + [requests[i]], KeyOf(requests[i]))
  {
    hide Own;
    hide KeyOf;
    var key := KeyOf(requests[i]);
    var own := Own(requests[..i], key);
    OwnSound(requests[..i], key);
    forall j | 0 <= j < |own| ensures own[j].at <= requests[i].at && KeyOf(own[j]) == key { assert own[j] in own; }
  }

  // ---- the last second of the day ----

  function Count(requests: seq<Request>, limit: int, n: nat): nat
    requires n <= |requests|
  {
    if n == 0 then 0 else Count(requests, limit, n - 1) + if Allowed(requests, n - 1, limit) then 1 else 0
  }

  /** The requests that come before the first counter expires. */
  function Early(requests: seq<Request>, n: nat): nat
    requires n <= |requests|
  {
    if n == 0 then 0 else Early(requests, n - 1) + if requests[n - 1].at < Expiry(requests[0].at) then 1 else 0
  }

  function Min(a: int, b: int): int {
    if a <= b then a else b
  }

  lemma {:induction false} EarlyIsPrefix(requests: seq<Request>, n: nat)
    requires InOrder(requests) && n <= |requests|
    ensures Early(requests, n) <= n
    ensures n > 0 && requests[n - 1].at < Expiry(requests[0].at) ==> Early(requests, n) == n
  {
    if n > 1 {
      EarlyIsPrefix(requests, n - 1);
      assert requests[n - 2].at <= requests[n - 1].at;
    }
  }

  /** All allowed requests of a day: at most `limit` before the counter expires, and then every
      one of the remaining part of the last second. */
  lemma {:induction false} AllowedCount(requests: seq<Request>, key: Key, limit: int, n: nat)
    requires OneDay(requests, key) && n <= |requests| && limit >= 1
    ensures Count(requests, limit, n) == Min(limit, Early(requests, n)) + (n - Early(requests, n))
  {
    if n > 0 {
      AllowedCount(requests, key, limit, n - 1);
      ConsumedExactly(requests, key, n - 1);
      EarlyIsPrefix(requests, n - 1);
      EarlyIsPrefix(requests, n);
    }
  }

  /** At most `limit` requests of a day are allowed exactly when those after the counter's
      expiry do not exceed what the earlier ones left over. */
  lemma LimitKeptExactly(requests: seq<Request>, key: Key, limit: int)
    requires OneDay(requests, key) && limit >= 1
    ensures Count(requests, limit, |requests|) <= limit
       <==> Early(requests, |requests|) == |requests| || |requests| <= limit
  {
    AllowedCount(requests, key, limit, |requests|);
    EarlyIsPrefix(requests, |requests|);
  }

  /** A burst in the last second is never stopped. */
  lemma LastSecondUnlimited(requests: seq<Request>, key: Key, limit: int, i: int)
    requires OneDay(requests, key) && 0 <= i < |requests| && limit >= 1
    requires requests[0].at > Midnight(key.day) - SECOND
    ensures Allowed(requests, i, limit)
  {
    assert KeyOf(requests[0]) == key;
    ExpiresInLastSecond(requests[0].at);
    assert i > 0 ==> requests[0].at <= requests[i].at;
    assert SecondsUntilNextDay(requests[0].at) == 0;
    ConsumedExactly(requests, key, i);
  }
}
