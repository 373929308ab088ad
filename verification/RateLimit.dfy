/** The in-memory token bucket: how many requests it grants in any interval, whom it never
    refuses, and exactly when its eviction of idle visitors goes unnoticed. Times and durations
    are whole nanoseconds. */
module RateLimit {
  import opened Results
  import opened Quotients

  datatype Visitor = Visitor(tokens: int, lastRefill: int)

  datatype Config = Config(rate: int, window: int)

  predicate ValidConfig(c: Config) {
    c.rate > 0 && c.window > 0
  }

  const EVICTION_AGE := 600_000_000_000

  function PerToken(c: Config): (d: int)
    requires ValidConfig(c)
    ensures d >= 1
  {
    if c.window / c.rate <= 0 then 1 else c.window / c.rate
  }

  // ---------- one call ----------

  /** The visitor as allow leaves it before it takes a token. */
  function Refilled(c: Config, v: Visitor, now: int): Visitor
    requires ValidConfig(c)
  {
    var tokensToAdd := (now - v.lastRefill) / PerToken(c);
    if tokensToAdd > 0
    then Visitor(if v.tokens + tokensToAdd > c.rate then c.rate else v.tokens + tokensToAdd, now)
    else v
  }

  predicate Granted(c: Config, v: Option<Visitor>, now: int)
    requires ValidConfig(c)
  {
    v.Some? ==> Refilled(c, v.value, now).tokens > 0
  }

  function Served(c: Config, v: Option<Visitor>, now: int): Visitor
    requires ValidConfig(c)
  {
    match v
    case None => Visitor(c.rate - 1, now)
    case Some(seen) =>
      var r := Refilled(c, seen, now);
      if r.tokens > 0 then r.(tokens := r.tokens - 1) else r
  }

  /** Between calls a visitor never holds a full bucket. */
  predicate BucketOk(c: Config, v: Visitor) {
    0 <= v.tokens <= c.rate - 1
  }

  lemma ServedBucketOk(c: Config, v: Option<Visitor>, now: int)
    requires ValidConfig(c) && (v.Some? ==> BucketOk(c, v.value))
    ensures BucketOk(c, Served(c, v, now))
    ensures (v.Some? ==> v.value.lastRefill <= now) ==> Served(c, v, now).lastRefill <= now
  {
  }

  // ---------- a trace of calls on one key ----------

  ghost predicate Monotone(times: seq<int>) {
    forall i, j :: 0 <= i < j < |times| ==> times[i] <= times[j]
  }

  ghost predicate Follows(v: Option<Visitor>, times: seq<int>) {
    && Monotone(times)
    && (v.Some? && |times| > 0 ==> v.value.lastRefill <= times[0])
  }

  function GrantsIn(c: Config, v: Option<Visitor>, times: seq<int>, a: int, b: int): nat
    requires ValidConfig(c)
    decreases |times|
  {
    if times == [] then 0
    else
      (if Granted(c, v, times[0]) && a <= times[0] <= b then 1 else 0)
      + GrantsIn(c, Some(Served(c, v, times[0])), times[1..], a, b)
  }

  /** From a known visitor on, at most its tokens plus what accrues until b is granted. */
  lemma {:induction false} GrantsFromVisitor(c: Config, v: Visitor, times: seq<int>, a: int, b: int)
    requires ValidConfig(c) && BucketOk(c, v) && Follows(Some(v), times) && v.lastRefill <= b
    ensures GrantsIn(c, Some(v), times, a, b) <= v.tokens + (b - v.lastRefill) / PerToken(c)
    decreases |times|
  {
    var d := PerToken(c);
    DivMonotone(0, b - v.lastRefill, d);
    if times != [] {
      var t := times[0];
      var next := Served(c, Some(v), t);
      ServedBucketOk(c, Some(v), t);
      if t > b {
        NoneAfter(c, Some(v), times, a, b);
      } else {
        DivAdds(t - v.lastRefill, b - t, d);
        GrantsFromVisitor(c, next, times[1..], a, b);
      }
    }
  }

  lemma {:induction false} NoneAfter(c: Config, v: Option<Visitor>, times: seq<int>, a: int, b: int)
    requires ValidConfig(c) && Follows(v, times) && (v.Some? ==> BucketOk(c, v.value))
    requires times != [] ==> times[0] > b
    ensures GrantsIn(c, v, times, a, b) == 0
    decreases |times|
  {
    if times != [] {
      ServedBucketOk(c, v, times[0]);
      NoneAfter(c, Some(Served(c, v, times[0])), times[1..], a, b);
    }
  }

  /** In any interval [a, b] a key is granted at most rate requests plus one for each full
      perToken the interval lasts. */
  lemma {:induction false} GrantsBounded(c: Config, v: Option<Visitor>, times: seq<int>, a: int, b: int)
    requires ValidConfig(c) && Follows(v, times) && (v.Some? ==> BucketOk(c, v.value)) && a <= b
    ensures GrantsIn(c, v, times, a, b) <= c.rate + (b - a) / PerToken(c)
    decreases |times|
  {
    var d := PerToken(c);
    DivMonotone(0, b - a, d);
    if times != [] {
      var t := times[0];
      var next := Served(c, v, t);
      ServedBucketOk(c, v, t);
      if t > b {
        NoneAfter(c, v, times, a, b);
      } else if t < a {
        GrantsBounded(c, Some(next), times[1..], a, b);
      } else {
        DivMonotone(b - t, b - a, d);
        if v.Some? && next.lastRefill < t {
          // no refill at t: what accrued before the interval is less than one token
          DivMonotone(b - v.value.lastRefill, (b - t) + d, d);
          DivPlusOne(b - t, d);
          GrantsFromVisitor(c, v.value, times, a, b);
        } else {
          GrantsFromVisitor(c, next, times[1..], a, b);
        }
      }
    }
  }

  /** Calls at least perToken apart, the first of them at least perToken after the last refill. */
  predicate Spaced(c: Config, v: Option<Visitor>, times: seq<int>)
    requires ValidConfig(c)
  {
    && (v.Some? && times != [] ==> v.value.lastRefill + PerToken(c) <= times[0])
    && forall i :: 0 <= i < |times| - 1 ==> times[i] + PerToken(c) <= times[i + 1]
  }

  lemma {:induction false} SpacedFromRefill(c: Config, v: Option<Visitor>, times: seq<int>, a: int, b: int)
    requires ValidConfig(c) && (v.Some? ==> BucketOk(c, v.value)) && Spaced(c, v, times)
    requires forall i :: 0 <= i < |times| ==> a <= times[i] <= b
    ensures GrantsIn(c, v, times, a, b) == |times|
    decreases |times|
  {
    if times != [] {
      var t := times[0];
      if v.Some? {
        DivAtLeast(t - v.value.lastRefill, 1, PerToken(c));
      }
      forall i | 0 <= i < |times[1..]| - 1 ensures times[1..][i] + PerToken(c) <= times[1..][i + 1] {
        assert times[i + 1] + PerToken(c) <= times[i + 2];
      }
      SpacedFromRefill(c, Some(Served(c, v, t)), times[1..], a, b);
    }
  }

  /** Before perToken has passed, a call gets a token that was left, and no refill. */
  lemma EarlyCall(c: Config, v: Visitor, t: int)
    requires ValidConfig(c) && BucketOk(c, v) && v.lastRefill <= t < v.lastRefill + PerToken(c)
    ensures Granted(c, Some(v), t) <==> v.tokens > 0
    ensures Served(c, Some(v), t).lastRefill == v.lastRefill
  {
    DivAtLeast(t - v.lastRefill, 1, PerToken(c));
  }

  /** A caller whose calls are at least perToken apart is refused at most its first call, and that
      only by a bucket it finds empty less than perToken after its last refill. */
  lemma SpacedCallsGranted(c: Config, v: Option<Visitor>, times: seq<int>, a: int, b: int)
    requires ValidConfig(c) && (v.Some? ==> BucketOk(c, v.value)) && Follows(v, times)
    requires forall i :: 0 <= i < |times| - 1 ==> times[i] + PerToken(c) <= times[i + 1]
    requires forall i :: 0 <= i < |times| ==> a <= times[i] <= b
    ensures var refused := times != [] && v.Some? && v.value.tokens == 0
                           && times[0] - v.value.lastRefill < PerToken(c);
            GrantsIn(c, v, times, a, b) == |times| - if refused then 1 else 0
  {
    if times == [] || v.None? || v.value.lastRefill + PerToken(c) <= times[0] {
      SpacedFromRefill(c, v, times, a, b);
    } else {
      var t, rest := times[0], times[1..];
      var next := Served(c, v, t);
      ServedBucketOk(c, v, t);
      EarlyCall(c, v.value, t);
      assert |rest| > 0 ==> rest[0] == times[1];
      forall i | 0 <= i < |rest| - 1 ensures rest[i] + PerToken(c) <= rest[i + 1] {
        assert times[i + 1] + PerToken(c) <= times[i + 2];
      }
      SpacedFromRefill(c, Some(next), rest, a, b);
    }
  }

  // ---------- exactly what a moment grants ----------

  /** n calls at one moment. */
  function AtOnce(n: nat, t: int): (times: seq<int>)
    ensures |times| == n && forall i :: 0 <= i < n ==> times[i] == t
  {
    seq(n, _ => t)
  }

  /** The visitor after a whole trace of calls. */
  function Finally(c: Config, v: Option<Visitor>, times: seq<int>): Option<Visitor>
    requires ValidConfig(c)
    decreases |times|
  {
    if times == [] then v else Finally(c, Some(Served(c, v, times[0])), times[1..])
  }

  function Min(x: int, y: int): int {
    if x <= y then x else y
  }

  /** The tokens a visitor has at a moment: what was left, plus one for each full perToken since
      its last refill, never more than rate; a newcomer has them all. */
  function TokensAt(c: Config, v: Option<Visitor>, t: int): int
    requires ValidConfig(c)
  {
    match v
    case None => c.rate
    case Some(seen) => Min(c.rate, seen.tokens + (t - seen.lastRefill) / PerToken(c))
  }

  /** The last refill as of a moment: that moment itself for a newcomer or when a full perToken has
      passed, and no later refill otherwise. */
  function RefillAt(c: Config, v: Option<Visitor>, t: int): int
    requires ValidConfig(c)
  {
    if v.Some? && t - v.value.lastRefill < PerToken(c) then v.value.lastRefill else t
  }

  lemma OneCall(c: Config, v: Option<Visitor>, t: int)
    requires ValidConfig(c) && (v.Some? ==> BucketOk(c, v.value) && v.value.lastRefill <= t)
    ensures Granted(c, v, t) <==> TokensAt(c, v, t) > 0
    ensures Served(c, v, t) == Visitor(if TokensAt(c, v, t) > 0 then TokensAt(c, v, t) - 1 else 0, RefillAt(c, v, t))
  {
    if v.Some? {
      var elapsed := t - v.value.lastRefill;
      DivAtLeast(elapsed, 0, PerToken(c));
      DivAtLeast(elapsed, 1, PerToken(c));
    }
  }

  /** A second call at the same moment finds what the first one left. */
  lemma SameMoment(c: Config, v: Visitor, t: int)
    requires ValidConfig(c) && BucketOk(c, v) && v.lastRefill <= t < v.lastRefill + PerToken(c)
    ensures TokensAt(c, Some(v), t) == v.tokens && RefillAt(c, Some(v), t) == v.lastRefill
  {
    DivAtLeast(t - v.lastRefill, 0, PerToken(c));
    DivAtLeast(t - v.lastRefill, 1, PerToken(c));
  }

  /** Of n calls at one moment exactly as many are granted as there are tokens, and that many
      tokens are gone afterwards: nothing saved is lost, nothing is granted twice. */
  lemma {:induction false} BurstGrantsTokens(c: Config, v: Option<Visitor>, n: nat, t: int, a: int, b: int)
    requires ValidConfig(c) && (v.Some? ==> BucketOk(c, v.value) && v.value.lastRefill <= t) && a <= t <= b
    ensures GrantsIn(c, v, AtOnce(n, t), a, b) == Min(n, TokensAt(c, v, t))
    ensures n > 0 ==> Finally(c, v, AtOnce(n, t))
                      == Some(Visitor(TokensAt(c, v, t) - Min(n, TokensAt(c, v, t)), RefillAt(c, v, t)))
    decreases n
  {
    if v.Some? {
      DivAtLeast(t - v.value.lastRefill, 0, PerToken(c));
    }
    if n > 0 {
      var next := Served(c, v, t);
      OneCall(c, v, t);
      ServedBucketOk(c, v, t);
      SameMoment(c, next, t);
      assert AtOnce(n, t)[1..] == AtOnce(n - 1, t);
      BurstGrantsTokens(c, Some(next), n - 1, t, a, b);
    }
  }

  // ---------- all keys, with eviction ----------

  type Visitors = map<string, Visitor>

  function Lookup(m: Visitors, key: string): Option<Visitor> {
    if key in m then Some(m[key]) else None
  }

  function Evicted(m: Visitors, now: int): Visitors {
    map k | k in m && !(now - m[k].lastRefill > EVICTION_AGE) :: m[k]
  }

  datatype Event = Call(key: string, now: int) | Cleanup(now: int)

  ghost predicate InOrder(events: seq<Event>) {
    forall i, j :: 0 <= i < j < |events| ==> events[i].now <= events[j].now
  }

  function After1(c: Config, m: Visitors, e: Event, evicting: bool): Visitors
    requires ValidConfig(c)
  {
    match e
    case Call(key, now) => m[key := Served(c, Lookup(m, key), now)]
    case Cleanup(now) => if evicting then Evicted(m, now) else m
  }

  function Answer1(c: Config, m: Visitors, e: Event): seq<bool>
    requires ValidConfig(c)
  {
    match e
    case Call(key, now) => [Granted(c, Lookup(m, key), now)]
    case Cleanup(_) => []
  }

  function Answers(c: Config, m: Visitors, events: seq<Event>, evicting: bool): seq<bool>
    requires ValidConfig(c)
    decreases |events|
  {
    if events == [] then []
    else Answer1(c, m, events[0]) + Answers(c, After1(c, m, events[0], evicting), events[1..], evicting)
  }

  function After(c: Config, m: Visitors, events: seq<Event>, evicting: bool): Visitors
    requires ValidConfig(c)
    decreases |events|
  {
    if events == [] then m else After(c, After1(c, m, events[0], evicting), events[1..], evicting)
  }

  /** The evicting limiter remembers some of what the other one does, and has forgotten only
      visitors who would find a full bucket anyway. */
  ghost predicate Simulates(c: Config, e: Visitors, k: Visitors, now: int)
    requires ValidConfig(c)
  {
    && (forall x :: x in e ==> x in k && e[x] == k[x])
    && (forall x :: x in k ==> BucketOk(c, k[x]))
    && (forall x :: x in k && x !in e ==> now - k[x].lastRefill > EVICTION_AGE)
  }

  predicate ForgetsOnlyFull(c: Config)
    requires ValidConfig(c)
  {
    c.rate * PerToken(c) <= EVICTION_AGE + 1
  }

  lemma SimulationStep(c: Config, e: Visitors, k: Visitors, now: int, ev: Event)
    requires ValidConfig(c) && ForgetsOnlyFull(c) && Simulates(c, e, k, now) && now <= ev.now
    ensures Simulates(c, After1(c, e, ev, true), After1(c, k, ev, false), ev.now)
    ensures Answer1(c, e, ev) == Answer1(c, k, ev)
  {
    if ev.Call? {
      ServedBucketOk(c, Lookup(k, ev.key), ev.now);
      if ev.key in k && ev.key !in e {
        DivAtLeast(ev.now - k[ev.key].lastRefill, c.rate, PerToken(c));
      }
    }
  }

  lemma {:induction false} SameAnswers(c: Config, e: Visitors, k: Visitors, now: int, events: seq<Event>)
    requires ValidConfig(c) && ForgetsOnlyFull(c) && Simulates(c, e, k, now)
    requires InOrder(events) && (events != [] ==> now <= events[0].now)
    ensures Answers(c, e, events, true) == Answers(c, k, events, false)
    decreases |events|
  {
    if events != [] {
      SimulationStep(c, e, k, now, events[0]);
      SameAnswers(c, After1(c, e, events[0], true), After1(c, k, events[0], false), events[0].now, events[1..]);
    }
  }

  /** No client can tell whether idle visitors are evicted. */
  ghost predicate EvictionInvisible(c: Config)
    requires ValidConfig(c)
  {
    forall events :: InOrder(events) ==> Answers(c, map[], events, true) == Answers(c, map[], events, false)
  }

  // ---------- the trace that tells them apart ----------

  function Burst(n: nat, t: int): seq<Event> {
    if n == 0 then [] else [Call("", t)] + Burst(n - 1, t)
  }

  lemma {:induction false} BurstIsOneMoment(n: nat, t: int)
    ensures |Burst(n, t)| == n && forall i :: 0 <= i < n ==> Burst(n, t)[i].now == t
  {
    if n > 0 {
      BurstIsOneMoment(n - 1, t);
    }
  }

  lemma {:induction false} AnswersJoin(c: Config, m: Visitors, xs: seq<Event>, ys: seq<Event>, evicting: bool)
    requires ValidConfig(c)
    ensures Answers(c, m, xs + ys, evicting)
         == Answers(c, m, xs, evicting) + Answers(c, After(c, m, xs, evicting), ys, evicting)
    decreases |xs|
  {
    if xs == [] {
      assert xs + ys == ys;
    } else {
      var all, rest := xs + ys, xs[1..];
      assert all[0] == xs[0] && all[1..] == rest + ys;
      var m1 := After1(c, m, xs[0], evicting);
      AnswersJoin(c, m1, rest, ys, evicting);
      var last := Answers(c, After(c, m1, rest, evicting), ys, evicting);
      calc {
        Answers(c, m, all, evicting);
        Answer1(c, m, xs[0]) + (Answers(c, m1, rest, evicting) + last);
        (Answer1(c, m, xs[0]) + Answers(c, m1, rest, evicting)) + last;
        Answers(c, m, xs, evicting) + last;
      }
    }
  }

  /** Calls at the moment of the last refill are granted while tokens last. */
  lemma {:induction false} BurstDrains(c: Config, m: Visitors, n: nat, t: int, evicting: bool)
    requires ValidConfig(c) && "" in m && m[""].lastRefill == t && m[""].tokens >= 0
    ensures |Answers(c, m, Burst(n, t), evicting)| == n
    ensures forall i :: 0 <= i < n ==> (Answers(c, m, Burst(n, t), evicting)[i] <==> i < m[""].tokens)
    ensures After(c, m, Burst(n, t), evicting)
         == m["" := Visitor(if n <= m[""].tokens then m[""].tokens - n else 0, t)]
    decreases n
  {
    if n == 0 {
      assert m["" := m[""]] == m;
    } else {
      assert (t - t) / PerToken(c) == 0;
      var m1 := After1(c, m, Call("", t), evicting);
      assert Burst(n, t)[1..] == Burst(n - 1, t);
      BurstDrains(c, m1, n - 1, t, evicting);
    }
  }

  /** From an empty limiter a burst of `rate` calls is granted and drains the bucket. */
  lemma FirstBurst(c: Config, t: int, evicting: bool)
    requires ValidConfig(c)
    ensures var got := Answers(c, map[], Burst(c.rate, t), evicting);
            |got| == c.rate && got[c.rate - 1]
    ensures After(c, map[], Burst(c.rate, t), evicting) == map["" := Visitor(0, t)]
  {
    var m1 := After1(c, map[], Call("", t), evicting);
    assert Burst(c.rate, t)[1..] == Burst(c.rate - 1, t);
    BurstDrains(c, m1, c.rate - 1, t, evicting);
  }

  /** A drained visitor that came back too early cannot be granted `rate` calls again. */
  lemma EarlyBurst(c: Config)
    requires ValidConfig(c) && !ForgetsOnlyFull(c)
    ensures var t: int := EVICTION_AGE + 1;
            var got := Answers(c, map["" := Visitor(0, 0)], Burst(c.rate, t), false);
            |got| == c.rate && !got[c.rate - 1]
  {
    var t: int := EVICTION_AGE + 1;
    var m := map["" := Visitor(0, 0)];
    DivAtLeast(t, c.rate, PerToken(c));
    DivAtLeast(t, 0, PerToken(c));
    var m1 := After1(c, m, Call("", t), false);
    assert Burst(c.rate, t)[1..] == Burst(c.rate - 1, t);
    if t / PerToken(c) > 0 {
      BurstDrains(c, m1, c.rate - 1, t, false);
    } else {
      EmptyBurst(c, m1, c.rate - 1, t, false);
    }
  }

  lemma {:induction false} EmptyBurst(c: Config, m: Visitors, n: nat, t: int, evicting: bool)
    requires ValidConfig(c) && "" in m && m[""].tokens == 0 && (t - m[""].lastRefill) / PerToken(c) <= 0
    ensures |Answers(c, m, Burst(n, t), evicting)| == n
    ensures forall i :: 0 <= i < n ==> !Answers(c, m, Burst(n, t), evicting)[i]
    decreases n
  {
    if n > 0 {
      var m1 := After1(c, m, Call("", t), evicting);
      assert Burst(n, t)[1..] == Burst(n - 1, t);
      EmptyBurst(c, m1, n - 1, t, evicting);
    }
  }

  /** A burst, then ten minutes and a nanosecond of silence, a cleanup and a second burst. */
  function TwoBursts(c: Config): seq<Event>
    requires ValidConfig(c)
  {
    Burst(c.rate, 0) + ([Cleanup(EVICTION_AGE + 1)] + Burst(c.rate, EVICTION_AGE + 1))
  }

  lemma TwoBurstsInOrder(c: Config)
    requires ValidConfig(c)
    ensures InOrder(TwoBursts(c))
  {
    BurstIsOneMoment(c.rate, 0);
    BurstIsOneMoment(c.rate, EVICTION_AGE + 1);
  }

  function Kept(evicting: bool): Visitors {
    if evicting then map[] else map["" := Visitor(0, 0)]
  }

  /** The cleanup after the silence drops the drained visitor, or is not there. */
  lemma SilenceForgets(c: Config, again: seq<Event>, evicting: bool)
    requires ValidConfig(c)
    ensures Answers(c, map["" := Visitor(0, 0)], [Cleanup(EVICTION_AGE + 1)] + again, evicting)
            == Answers(c, Kept(evicting), again, evicting)
  {
    var silence := Cleanup(EVICTION_AGE + 1);
    var drained: Visitors := map["" := Visitor(0, 0)];
    assert After1(c, drained, silence, evicting) == Kept(evicting);
    assert ([silence] + again)[0] == silence && ([silence] + again)[1..] == again;
    assert Answer1(c, drained, silence) == [];
  }

  lemma TwoBurstsAnswers(c: Config, evicting: bool)
    requires ValidConfig(c)
    ensures Answers(c, map[], TwoBursts(c), evicting)
            == Answers(c, map[], Burst(c.rate, 0), evicting)
             + Answers(c, Kept(evicting), Burst(c.rate, EVICTION_AGE + 1), evicting)
  {
    var silence := Cleanup(EVICTION_AGE + 1);
    var again := Burst(c.rate, EVICTION_AGE + 1);
    FirstBurst(c, 0, evicting);
    AnswersJoin(c, map[], Burst(c.rate, 0), [silence] + again, evicting);
    SilenceForgets(c, again, evicting);
  }

  lemma EvictionShows(c: Config)
    requires ValidConfig(c) && !ForgetsOnlyFull(c)
    ensures !EvictionInvisible(c)
  {
    TwoBurstsInOrder(c);
    TwoBurstsAnswers(c, true);
    TwoBurstsAnswers(c, false);
    FirstBurst(c, 0, true);
    FirstBurst(c, 0, false);
    FirstBurst(c, EVICTION_AGE + 1, true);
    EarlyBurst(c);
    var yes := Answers(c, map[], TwoBursts(c), true);
    var no := Answers(c, map[], TwoBursts(c), false);
    assert yes[2 * c.rate - 1] != no[2 * c.rate - 1];
  }

  /** Eviction goes unnoticed exactly when a bucket refills completely within the eviction age:
      rate * perToken is at most ten minutes and a nanosecond. */
  lemma EvictionInvisibleIff(c: Config)
    requires ValidConfig(c)
    ensures EvictionInvisible(c) <==> c.rate * PerToken(c) <= 600_000_000_001
    ensures PerToken(c) == if c.window / c.rate < 1 then 1 else c.window / c.rate
  {
    if ForgetsOnlyFull(c) {
      forall events: seq<Event> | InOrder(events)
        ensures Answers(c, map[], events, true) == Answers(c, map[], events, false)
      {
        var start := if events == [] then 0 else events[0].now;
        SameAnswers(c, map[], map[], start, events);
      }
    } else {
      EvictionShows(c);
    }
  }

  // ---------- the bound, for each key of the running limiter ----------

  function TimesOf(events: seq<Event>, key: string): seq<int> {
    if events == [] then []
    else (if events[0].Call? && events[0].key == key then [events[0].now] else []) + TimesOf(events[1..], key)
  }

  /** Calls of one key granted in [a, b]. */
  function GrantsTo(c: Config, m: Visitors, events: seq<Event>, evicting: bool, key: string, a: int, b: int): nat
    requires ValidConfig(c)
    decreases |events|
  {
    if events == [] then 0
    else
      var e := events[0];
      (if e.Call? && e.key == key && Granted(c, Lookup(m, key), e.now) && a <= e.now <= b then 1 else 0)
      + GrantsTo(c, After1(c, m, e, evicting), events[1..], evicting, key, a, b)
  }

  lemma {:induction false} SameGrants(c: Config, e: Visitors, k: Visitors, now: int, events: seq<Event>,
                                      key: string, a: int, b: int)
    requires ValidConfig(c) && ForgetsOnlyFull(c) && Simulates(c, e, k, now)
    requires InOrder(events) && (events != [] ==> now <= events[0].now)
    ensures GrantsTo(c, e, events, true, key, a, b) == GrantsTo(c, k, events, false, key, a, b)
    decreases |events|
  {
    if events != [] {
      SimulationStep(c, e, k, now, events[0]);
      SameGrants(c, After1(c, e, events[0], true), After1(c, k, events[0], false), events[0].now, events[1..],
                 key, a, b);
    }
  }

  lemma {:induction false} KeysAreIndependent(c: Config, m: Visitors, events: seq<Event>, key: string, a: int, b: int)
    requires ValidConfig(c)
    ensures GrantsTo(c, m, events, false, key, a, b) == GrantsIn(c, Lookup(m, key), TimesOf(events, key), a, b)
    decreases |events|
  {
    if events != [] {
      var rest := TimesOf(events[1..], key);
      assert ([events[0].now] + rest)[1..] == rest && [] + rest == rest;
      KeysAreIndependent(c, After1(c, m, events[0], false), events[1..], key, a, b);
    }
  }

  lemma {:induction false} TimesInOrder(events: seq<Event>, key: string, floor: int)
    requires InOrder(events) && (events != [] ==> floor <= events[0].now)
    ensures Monotone(TimesOf(events, key))
    ensures forall i :: 0 <= i < |TimesOf(events, key)| ==> floor <= TimesOf(events, key)[i]
  {
    if events != [] {
      TimesInOrder(events[1..], key, events[0].now);
    }
  }

  /** Whatever the other keys do and whenever cleanup runs, a limiter that forgets only full
      buckets grants a key at most rate requests plus one per full perToken of the interval. */
  lemma EveryKeyBounded(c: Config, events: seq<Event>, key: string, a: int, b: int)
    requires ValidConfig(c) && ForgetsOnlyFull(c) && InOrder(events) && a <= b
    ensures GrantsTo(c, map[], events, true, key, a, b) <= c.rate + (b - a) / PerToken(c)
  {
    var start := if events == [] then 0 else events[0].now;
    SameGrants(c, map[], map[], start, events, key, a, b);
    KeysAreIndependent(c, map[], events, key, a, b);
    TimesInOrder(events, key, start);
    GrantsBounded(c, None, TimesOf(events, key), a, b);
  }

  // ---------- the limiter itself ----------

  /** rateLimiter; each method holds the mutex from start to end. */
  class RateLimiter {
    const config: Config
    var visitors: Visitors

    ghost predicate Valid()
      reads this
    {
      ValidConfig(config) && forall k :: k in visitors ==> BucketOk(config, visitors[k])
    }

    constructor (rate: int, window: int)
      ensures Valid() && visitors == map[]
      ensures config.rate == (if rate <= 0 then 10 else rate)
      ensures config.window == (if window <= 0 then 60_000_000_000 else window)
    {
      config := Config(if rate <= 0 then 10 else rate, if window <= 0 then 60_000_000_000 else window);
      visitors := map[];
    }

    method Allow(key: string, now: int) returns (ok: bool)
      requires Valid()
      modifies this
      ensures Valid()
      ensures visitors == After1(config, old(visitors), Call(key, now), true)
      ensures [ok] == Answer1(config, old(visitors), Call(key, now))
      ensures key in old(visitors) ==> old(visitors)[key].lastRefill <= now ==>
                var left := TokensAt(config, Some(old(visitors)[key]), now);
                && ok == (left > 0)
                && visitors == old(visitors)[key := Visitor(if left > 0 then left - 1 else 0,
                                                            RefillAt(config, Some(old(visitors)[key]), now))]
      ensures key !in old(visitors) ==> ok && visitors == old(visitors)[key := Visitor(config.rate - 1, now)]
    {
      ServedBucketOk(config, Lookup(visitors, key), now);
      if key in visitors && visitors[key].lastRefill <= now {
        OneCall(config, Some(visitors[key]), now);
      }
      if key !in visitors {
        visitors := visitors[key := Visitor(config.rate - 1, now)];
        return true;
      }
      var v := visitors[key];
      var elapsed := now - v.lastRefill;
      var perToken := config.window / config.rate;
      if perToken <= 0 {
        perToken := 1;
      }
      var tokensToAdd := elapsed / perToken;
      if tokensToAdd > 0 {
        v := v.(tokens := v.tokens + tokensToAdd);
        if v.tokens > config.rate {
          v := v.(tokens := config.rate);
        }
        v := v.(lastRefill := now);
      }
      ok := v.tokens > 0;
      if ok {
        v := v.(tokens := v.tokens - 1);
      }
      visitors := visitors[key := v];
    }

    method CleanupOnce(now: int)
      requires Valid()
      modifies this
      ensures Valid()
      ensures visitors == After1(config, old(visitors), Cleanup(now), true)
      ensures forall k :: k in visitors <==>
                k in old(visitors) && now - old(visitors)[k].lastRefill <= 600_000_000_000
      ensures forall k :: k in visitors ==> visitors[k] == old(visitors)[k]
    {
      var keys := visitors.Keys;
      while keys != {}
        invariant keys <= visitors.Keys && visitors.Keys <= old(visitors).Keys
        invariant forall k :: k in visitors ==> visitors[k] == old(visitors)[k]
        invariant forall k :: k in old(visitors) && k !in keys ==>
                    (k in visitors <==> !(now - old(visitors)[k].lastRefill > EVICTION_AGE))
        decreases keys
      {
        var key :| key in keys;
        if now - visitors[key].lastRefill > EVICTION_AGE {
          visitors := visitors - {key};
        }
        keys := keys - {key};
      }
    }
  }
}
