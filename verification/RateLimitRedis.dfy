/** The limiter over the script on Redis: the same bound as over the in-memory windows. */
module RateLimitRedis {
  import opened Wrappers
  import opened RateLimitBackend
  import opened RateLimiting

  /** What reaches the server: the checks of all clients, and keys it drops on its own. */
  datatype Traffic = Check(c: Call) | Eviction(key: string, at: real)

  function TimeOf(t: Traffic): real { if t.Check? then t.c.a.at else t.at }

  /** The clock does not run backwards. */
  predicate Orderly(ts: seq<Traffic>, from: real)
    decreases |ts|
  {
    ts == [] || (from <= TimeOf(ts[0]) && Orderly(ts[1..], TimeOf(ts[0])))
  }

  function CallsOf(ts: seq<Traffic>): seq<Call>
    decreases |ts|
  {
    if ts == [] then [] else (if ts[0].Check? then [ts[0].c] else []) + CallsOf(ts[1..])
  }

  function RequestOf(c: Call): Event { Request(KeyOf(c), c.rule.limit, c.rule.seconds, c.a.at) }

  /** The stored keys afterwards. A check lost before it reached the server runs no script. */
  function AfterTraffic(keys: map<string, RedisKey>, t: Traffic): map<string, RedisKey> {
    match t
    case Check(c) => if c.a.fault.LostBefore? then keys else RedisStep(keys, RequestOf(c)).0
    case Eviction(key, at) => RedisStep(keys, Evict(key, at)).0
  }

  /** What check answers over the script. */
  function RedisVerdict(k: Option<RedisKey>, defaultFailOpen: bool, c: Call): Verdict {
    if !c.a.fault.Working? then Judge(c.rule, defaultFailOpen, c.a.fault, Window(0.0, 0), c.a.at)
    else
      var s := Script(k, c.rule.seconds, c.a.at);
      Decided(Decision(s.count <= c.rule.limit, c.rule.limit, Max(0, c.rule.limit - s.count), Max(1, s.ttl)))
  }

  /** Over a working Redis the limit decides too, and the wait is at least one second and, but for the
      rounding of TTL to the nearest second, what is left of the key. */
  lemma RedisWorkingVerdict(k: Option<RedisKey>, defaultFailOpen: bool, c: Call)
    requires c.a.fault == Working && c.rule.seconds > 0
    ensures var v, s := RedisVerdict(k, defaultFailOpen, c), Script(k, c.rule.seconds, c.a.at);
            && v.Decided? && v.d.limit == c.rule.limit && (v.d.allowed <==> s.count <= c.rule.limit)
            && (s.count <= c.rule.limit ==> v.d.remaining == c.rule.limit - s.count)
            && (s.count >= c.rule.limit ==> v.d.remaining == 0)
            && s.key.Some? && s.key.value.expireAt.Some? && v.d.resetAfter >= 1
            && v.d.resetAfter as real >= s.key.value.expireAt.value - c.a.at - 0.5
            && (v.d.resetAfter > 1 ==> v.d.resetAfter as real <= s.key.value.expireAt.value - c.a.at + 0.5)
  {
  }

  /** A failing backend is answered the same way whichever it is. */
  lemma RedisFaultVerdict(k: Option<RedisKey>, defaultFailOpen: bool, c: Call, w: Option<Window>)
    requires c.a.fault != Working
    ensures RedisVerdict(k, defaultFailOpen, c) == VerdictOf(w, defaultFailOpen, c)
  {
  }

  predicate IsFor(t: Traffic, key: string) { t.Check? && KeyOf(t.c) == key }

  function RedisSays(keys: map<string, RedisKey>, defaultFailOpen: bool, t: Traffic, key: string): seq<Verdict> {
    if IsFor(t, key) then [RedisVerdict(Lookup(keys, key), defaultFailOpen, t.c)] else []
  }

  /** The verdicts on the checks for `key`, in order. */
  function RedisTogether(keys: map<string, RedisKey>, defaultFailOpen: bool, ts: seq<Traffic>, key: string)
    : seq<Verdict>
    decreases |ts|
  {
    if ts == [] then []
    else
      RedisSays(keys, defaultFailOpen, ts[0], key)
      + RedisTogether(AfterTraffic(keys, ts[0]), defaultFailOpen, ts[1..], key)
  }

  // ---- The same verdicts, but for the wait ------------------------------------------------------------

  predicate SameButWait(u: Verdict, v: Verdict) {
    if u.Decided? && v.Decided? then u.d.(resetAfter := v.d.resetAfter) == v.d else u == v
  }

  predicate AllSameButWait(us: seq<Verdict>, vs: seq<Verdict>) {
    |us| == |vs| && forall i :: 0 <= i < |us| ==> SameButWait(us[i], vs[i])
  }

  lemma CheckAgrees(keys: map<string, RedisKey>, ws: map<string, Window>, defaultFailOpen: bool, c: Call, now: real)
    requires SameStore(keys, ws, now) && now <= c.a.at
    ensures SameButWait(RedisVerdict(Lookup(keys, KeyOf(c)), defaultFailOpen, c),
                        VerdictOf(Lookup(ws, KeyOf(c)), defaultFailOpen, c))
    ensures SameStore(AfterTraffic(keys, Check(c)), AfterCall(ws, c), c.a.at)
  {
    StepsAgree(keys, ws, RequestOf(c), now);
    if c.a.fault.LostBefore? {
      StoreLasts(keys, ws, now, c.a.at);
    }
  }

  lemma StoreLasts(keys: map<string, RedisKey>, ws: map<string, Window>, now: real, later: real)
    requires SameStore(keys, ws, now) && now <= later
    ensures SameStore(keys, ws, later)
  {
    forall key
      ensures SameBucket(Lookup(keys, key), Lookup(ws, key), later)
    {
      SameBucketLasts(Lookup(keys, key), Lookup(ws, key), now, later);
    }
  }

  /** The in-memory windows under the same traffic. */
  function WindowsAfter(ws: map<string, Window>, t: Traffic): map<string, Window> {
    if t.Check? then AfterCall(ws, t.c) else ws
  }

  function WindowsSay(ws: map<string, Window>, defaultFailOpen: bool, t: Traffic, key: string): seq<Verdict> {
    if IsFor(t, key) then [VerdictOf(Lookup(ws, key), defaultFailOpen, t.c)] else []
  }

  lemma FirstTraffic(ws: map<string, Window>, defaultFailOpen: bool, ts: seq<Traffic>, key: string)
    requires ts != []
    ensures Together(ws, defaultFailOpen, CallsOf(ts), key)
            == WindowsSay(ws, defaultFailOpen, ts[0], key)
               + Together(WindowsAfter(ws, ts[0]), defaultFailOpen, CallsOf(ts[1..]), key)
  {
    if ts[0].Check? {
      assert CallsOf(ts)[0] == ts[0].c && CallsOf(ts)[1..] == CallsOf(ts[1..]);
    } else {
      assert CallsOf(ts) == CallsOf(ts[1..]);
    }
  }

  lemma TrafficAgrees(keys: map<string, RedisKey>, ws: map<string, Window>, defaultFailOpen: bool, t: Traffic,
                      key: string, now: real)
    requires SameStore(keys, ws, now) && now <= TimeOf(t)
    ensures AllSameButWait(RedisSays(keys, defaultFailOpen, t, key), WindowsSay(ws, defaultFailOpen, t, key))
    ensures SameStore(AfterTraffic(keys, t), WindowsAfter(ws, t), TimeOf(t))
  {
    if t.Check? {
      CheckAgrees(keys, ws, defaultFailOpen, t.c, now);
    } else {
      StepsAgree(keys, ws, Evict(t.key, t.at), now);
    }
  }

  lemma SameInFront(x: seq<Verdict>, y: seq<Verdict>, us: seq<Verdict>, vs: seq<Verdict>)
    requires AllSameButWait(x, y) && AllSameButWait(us, vs)
    ensures AllSameButWait(x + us, y + vs)
  {
  }

  /** Whatever clients interleave, whatever is lost and whatever Redis drops, the script and the in-memory
      windows give the limiter the same verdicts, waits aside. */
  lemma {:induction false} VerdictsAgree(keys: map<string, RedisKey>, ws: map<string, Window>, defaultFailOpen: bool,
                                         ts: seq<Traffic>, key: string, now: real)
    requires SameStore(keys, ws, now) && Orderly(ts, now)
    ensures AllSameButWait(RedisTogether(keys, defaultFailOpen, ts, key),
                           Together(ws, defaultFailOpen, CallsOf(ts), key))
    decreases |ts|
  {
    if ts != [] {
      var t, keys', ws' := ts[0], AfterTraffic(keys, ts[0]), WindowsAfter(ws, ts[0]);
      TrafficAgrees(keys, ws, defaultFailOpen, t, key, now);
      VerdictsAgree(keys', ws', defaultFailOpen, ts[1..], key, TimeOf(t));
      FirstTraffic(ws, defaultFailOpen, ts, key);
      SameInFront(RedisSays(keys, defaultFailOpen, t, key), WindowsSay(ws, defaultFailOpen, t, key),
                  RedisTogether(keys', defaultFailOpen, ts[1..], key),
                  Together(ws', defaultFailOpen, CallsOf(ts[1..]), key));
    }
  }

  // ---- The bound ----------------------------------------------------------------------------------------

  lemma {:induction false} SameVerdictsSameCount(cs: seq<Call>, us: seq<Verdict>, vs: seq<Verdict>, lo: real, hi: real)
    requires |us| == |cs| && AllSameButWait(us, vs)
    ensures LetThrough(cs, us, lo, hi) == LetThrough(cs, vs, lo, hi)
    decreases |cs|
  {
    if cs != [] {
      assert SameButWait(us[0], vs[0]);
      assert forall i :: 0 <= i < |us| - 1 ==> us[1..][i] == us[i + 1] && vs[1..][i] == vs[i + 1];
      SameVerdictsSameCount(cs[1..], us[1..], vs[1..], lo, hi);
    }
  }

  lemma {:induction false} OrderlyAttempts(ts: seq<Traffic>, key: string, from: real, earlier: real)
    requires Orderly(ts, from) && earlier <= from
    ensures Ordered(AttemptsOf(OnlyFor(CallsOf(ts), key)), earlier)
    decreases |ts|
  {
    if ts != [] {
      var t := ts[0];
      if t.Check? && KeyOf(t.c) == key {
        OrderlyAttempts(ts[1..], key, TimeOf(t), TimeOf(t));
        var cs := OnlyFor(CallsOf(ts), key);
        assert CallsOf(ts)[0] == t.c && CallsOf(ts)[1..] == CallsOf(ts[1..]);
        assert cs[0] == t.c && cs[1..] == OnlyFor(CallsOf(ts[1..]), key);
        assert AttemptsOf(cs)[0] == t.c.a && AttemptsOf(cs)[1..] == AttemptsOf(cs[1..]);
      } else {
        OrderlyAttempts(ts[1..], key, TimeOf(t), earlier);
        SkippedCall(ts, key);
      }
    }
  }

  lemma SkippedCall(ts: seq<Traffic>, key: string)
    requires ts != [] && !(ts[0].Check? && KeyOf(ts[0].c) == key)
    ensures OnlyFor(CallsOf(ts), key) == OnlyFor(CallsOf(ts[1..]), key)
  {
    if ts[0].Check? {
      assert CallsOf(ts)[0] == ts[0].c && CallsOf(ts)[1..] == CallsOf(ts[1..]);
    } else {
      assert CallsOf(ts) == CallsOf(ts[1..]);
    }
  }

  /** The limiter as deployed: on a Redis that starts empty, among any traffic, the checks for one key under
      one rule are let through at most limit * (n + 1) - 1 times in an interval covered by `n` windows; a
      fail-open rule adds the checks that met a failing backend. */
  lemma RedisLimiterBound(defaultFailOpen: bool, ts: seq<Traffic>, key: string, rule: Rule,
                          from: real, lo: real, hi: real, n: nat)
    requires Orderly(ts, from) && OneRule(OnlyFor(CallsOf(ts), key), rule)
    requires rule.seconds > 0 && hi - lo <= (n * rule.seconds) as real
    ensures |RedisTogether(map[], defaultFailOpen, ts, key)| == |OnlyFor(CallsOf(ts), key)|
    ensures LetThrough(OnlyFor(CallsOf(ts), key), RedisTogether(map[], defaultFailOpen, ts, key), lo, hi)
            <= Max(0, rule.limit) * n + Max(0, rule.limit - 1)
               + Extra(FailsOpen(rule, defaultFailOpen), AttemptsOf(OnlyFor(CallsOf(ts), key)), lo, hi)
  {
    var cs := CallsOf(ts);
    VerdictsAgree(map[], map[], defaultFailOpen, ts, key, from);
    OrderlyAttempts(ts, key, from, from);
    LimiterBound(map[], defaultFailOpen, cs, key, rule, from, lo, hi, n);
    SameVerdictsSameCount(OnlyFor(cs, key), RedisTogether(map[], defaultFailOpen, ts, key),
                          Together(map[], defaultFailOpen, cs, key), lo, hi);
  }

  /** So is a rule stored as fail-closed, without any allowance for faults. */
  lemma RedisFailClosedBound(defaultFailOpen: bool, ts: seq<Traffic>, key: string, rule: Rule,
                             from: real, lo: real, hi: real, n: nat)
    requires Orderly(ts, from) && OneRule(OnlyFor(CallsOf(ts), key), rule) && rule.failOpen == Some(false)
    requires rule.seconds > 0 && hi - lo <= (n * rule.seconds) as real
    ensures |RedisTogether(map[], defaultFailOpen, ts, key)| == |OnlyFor(CallsOf(ts), key)|
    ensures LetThrough(OnlyFor(CallsOf(ts), key), RedisTogether(map[], defaultFailOpen, ts, key), lo, hi)
            <= Max(0, rule.limit) * n + Max(0, rule.limit - 1)
  {
    FaultIsPassedIff(rule, defaultFailOpen, LostBefore, Window(0.0, 0), 0.0);
    RedisLimiterBound(defaultFailOpen, ts, key, rule, from, lo, hi, n);
  }

  /** The stored keys after some traffic. */
  function KeysAfter(keys: map<string, RedisKey>, ts: seq<Traffic>): map<string, RedisKey>
    decreases |ts|
  {
    if ts == [] then keys else KeysAfter(AfterTraffic(keys, ts[0]), ts[1..])
  }

  function LastTime(ts: seq<Traffic>, from: real): real
    decreases |ts|
  {
    if ts == [] then from else LastTime(ts[1..], TimeOf(ts[0]))
  }

  lemma {:induction false} SomeWindowsMatch(keys: map<string, RedisKey>, ws: map<string, Window>, ts: seq<Traffic>,
                                           now: real) returns (vs: map<string, Window>)
    requires SameStore(keys, ws, now) && Orderly(ts, now)
    ensures SameStore(KeysAfter(keys, ts), vs, LastTime(ts, now))
    decreases |ts|
  {
    if ts == [] {
      vs := ws;
    } else {
      TrafficAgrees(keys, ws, true, ts[0], "", now);
      vs := SomeWindowsMatch(AfterTraffic(keys, ts[0]), WindowsAfter(ws, ts[0]), ts[1..], TimeOf(ts[0]));
    }
  }

  /** And in one window by its limit: after any traffic, from a moment when the key is gone. */
  lemma RedisFailClosedWindow(defaultFailOpen: bool, before: seq<Traffic>, ts: seq<Traffic>, key: string, rule: Rule,
                              from: real, start: real)
    requires Orderly(before, from) && LastTime(before, from) <= start && Orderly(ts, start)
    requires OneRule(OnlyFor(CallsOf(ts), key), rule) && rule.failOpen == Some(false) && rule.seconds > 0
    requires Alive(Lookup(KeysAfter(map[], before), key), start) == None
    ensures var vs := RedisTogether(KeysAfter(map[], before), defaultFailOpen, ts, key);
            && |vs| == |OnlyFor(CallsOf(ts), key)|
            && LetThrough(OnlyFor(CallsOf(ts), key), vs, start, start + rule.seconds as real) <= Max(0, rule.limit)
  {
    var keys, cs := KeysAfter(map[], before), CallsOf(ts);
    var ws := SomeWindowsMatch(map[], map[], before, from);
    StoreLasts(keys, ws, LastTime(before, from), start);
    VerdictsAgree(keys, ws, defaultFailOpen, ts, key, start);
    OrderlyAttempts(ts, key, start, start);
    FailClosedWindow(ws, defaultFailOpen, cs, key, rule, start);
    SameVerdictsSameCount(OnlyFor(cs, key), RedisTogether(keys, defaultFailOpen, ts, key),
                          Together(ws, defaultFailOpen, cs, key), start, start + rule.seconds as real);
  }
}
