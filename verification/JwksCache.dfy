/** The cache of signing keys: fetched when stale, and for an unknown key id at most once per
    minimum interval. The clock and the responses of the endpoint are inputs. */
module JwksCache {
  import opened Wrappers

  datatype Jwk = Jwk(kid: Option<string>, material: string)

  datatype Response = Failed | Payload(keys: seq<Jwk>)

  datatype Result = Key(jwk: Jwk) | UnknownKey | FetchFailed

  /** What one get_key reads, in order: the clock for staleness, the first response and the clock
      after it, the clock for the unknown key, the second response and the clock after it. */
  datatype Inputs = Inputs(kid: string, staleAt: real, first: Response, firstAt: real,
                           unknownAt: real, second: Response, secondAt: real)

  datatype Config = Config(ttl: real, minInterval: real)

  datatype Cache = Cache(keys: map<string, Jwk>, fetchedAt: Option<real>)

  const EMPTY := Cache(map[], None)

  predicate Usable(jwk: Jwk) { jwk.kid.Some? && jwk.kid.value != "" }

  /** The dictionary the refresh loop builds: later entries replace earlier ones. */
  function KeysOf(payload: seq<Jwk>): map<string, Jwk> {
    if payload == [] then map[]
    else
      var last := payload[|payload| - 1];
      var rest := KeysOf(payload[..|payload| - 1]);
      if Usable(last) then rest[last.kid.value := last] else rest
  }

  /** A key id is present exactly when some entry carries it, and stands for the last that does. */
  lemma {:induction false} KeysOfIsLastEntry(payload: seq<Jwk>, kid: string)
    ensures kid in KeysOf(payload) <==> kid != "" && exists i :: 0 <= i < |payload| && payload[i].kid == Some(kid)
    ensures kid in KeysOf(payload) ==>
              exists i :: 0 <= i < |payload| && payload[i] == KeysOf(payload)[kid] && payload[i].kid == Some(kid)
                          && forall j :: i < j < |payload| ==> payload[j].kid != Some(kid)
    decreases |payload|
  {
    if payload != [] {
      var n := |payload| - 1;
      var init := payload[..n];
      KeysOfIsLastEntry(init, kid);
      if payload[n].kid == Some(kid) && kid != "" {
        assert payload[n] == KeysOf(payload)[kid];
      } else if kid in KeysOf(init) {
        var i :| 0 <= i < |init| && init[i] == KeysOf(init)[kid] && init[i].kid == Some(kid)
                 && forall j :: i < j < |init| ==> init[j].kid != Some(kid);
        assert forall j :: i < j < |payload| ==> j == n || payload[j] == init[j];
        assert payload[i] == KeysOf(payload)[kid];
      }
    }
  }

  predicate Stale(c: Cache, g: Config, now: real) { c.fetchedAt.None? || now - c.fetchedAt.value >= g.ttl }

  predicate MayRefresh(c: Cache, g: Config, now: real) { c.fetchedAt.None? || now - c.fetchedAt.value >= g.minInterval }

  /** A step of get_key: the cache it leaves, whether it fetched, and whether that fetch failed. */
  datatype Fetch = Skipped | Failure | Success(at: real, payload: seq<Jwk>)

  function FetchOf(wanted: bool, r: Response, at: real): Fetch {
    if !wanted then Skipped else match r case Failed => Failure case Payload(keys) => Success(at, keys)
  }

  function Refreshed(c: Cache, f: Fetch): Cache {
    if f.Success? then Cache(KeysOf(f.payload), Some(f.at)) else c
  }

  /** The two fetches get_key may make. */
  function FirstFetch(c: Cache, g: Config, x: Inputs): Fetch { FetchOf(Stale(c, g, x.staleAt), x.first, x.firstAt) }

  function SecondFetch(c: Cache, g: Config, x: Inputs): Fetch {
    var f := FirstFetch(c, g, x);
    var c1 := Refreshed(c, f);
    FetchOf(!f.Failure? && x.kid !in c1.keys && MayRefresh(c1, g, x.unknownAt), x.second, x.secondAt)
  }

  function AfterCall(c: Cache, g: Config, x: Inputs): Cache {
    Refreshed(Refreshed(c, FirstFetch(c, g, x)), SecondFetch(c, g, x))
  }

  function ResultOf(c: Cache, g: Config, x: Inputs): Result {
    if FirstFetch(c, g, x).Failure? || SecondFetch(c, g, x).Failure? then FetchFailed
    else
      var keys := AfterCall(c, g, x).keys;
      if x.kid in keys then Key(keys[x.kid]) else UnknownKey
  }

  // ---- The same call, with others running while it waits -------------------------------------------

  /** What get_key does when it has control: it waits for a fetch, its first or its second, or answers. */
  datatype Next = Await(second: bool) | Answer(r: Result)

  function Found(c: Cache, kid: string): Result { if kid in c.keys then Key(c.keys[kid]) else UnknownKey }

  function OnFresh(c: Cache, g: Config, kid: string, now: real): Next {
    if kid !in c.keys && MayRefresh(c, g, now) then Await(true) else Answer(Found(c, kid))
  }

  function OnCall(c: Cache, g: Config, kid: string, staleAt: real, unknownAt: real): Next {
    if Stale(c, g, staleAt) then Await(false) else OnFresh(c, g, kid, unknownAt)
  }

  /** The fetch has ended at `at`; `c` is the cache as it then is. */
  function OnLand(c: Cache, g: Config, kid: string, second: bool, r: Response, at: real, unknownAt: real)
    : (Cache, Next)
  {
    if r.Failed? then (c, Answer(FetchFailed))
    else
      var d := Cache(KeysOf(r.keys), Some(at));
      (d, if second then Answer(Found(d, kid)) else OnFresh(d, g, kid, unknownAt))
  }

  /** The whole call, when other calls leave the cache as `whileFirst` and `whileSecond` during its
      fetches. */
  function Amid(c: Cache, g: Config, x: Inputs, whileFirst: Cache, whileSecond: Cache): (Cache, Result) {
    match OnCall(c, g, x.kid, x.staleAt, x.unknownAt)
    case Answer(r) => (c, r)
    case Await(true) => SecondLanding(g, x, whileSecond)
    case Await(false) =>
      var l := OnLand(whileFirst, g, x.kid, false, x.first, x.firstAt, x.unknownAt);
      if l.1.Answer? then (l.0, l.1.r) else SecondLanding(g, x, whileSecond)
  }

  function SecondLanding(g: Config, x: Inputs, landed: Cache): (Cache, Result) {
    var l := OnLand(landed, g, x.kid, true, x.second, x.secondAt, x.secondAt);
    (l.0, l.1.r)
  }

  /** Alone, it is the call described above. */
  lemma AloneIsAfterCall(c: Cache, g: Config, x: Inputs)
    ensures Amid(c, g, x, c, Refreshed(c, FirstFetch(c, g, x))) == (AfterCall(c, g, x), ResultOf(c, g, x))
  {
  }

  class JwksClient {
    const config: Config
    var keys: map<string, Jwk>
    var fetchedAt: Option<real>

    function State(): Cache
      reads this
    {
      Cache(keys, fetchedAt)
    }

    constructor (config: Config)
      ensures State() == EMPTY && this.config == config
    {
      this.config, keys, fetchedAt := config, map[], None;
    }

    /** `landed` is the cache that other calls leave while this one awaits the response. */
    method Refresh(r: Response, at: real, landed: Cache) returns (ok: bool)
      modifies this
      ensures ok == r.Payload?
      ensures State() == Refreshed(landed, FetchOf(true, r, at))
    {
      keys, fetchedAt := landed.keys, landed.fetchedAt;
      if r.Failed? {
        return false;
      }
      var built: map<string, Jwk> := map[];
      for i := 0 to |r.keys|
        invariant built == KeysOf(r.keys[..i])
      {
        var jwk := r.keys[i];
        assert r.keys[..i+1][..i] == r.keys[..i];
        if jwk.kid.Some? && jwk.kid.value != "" {
          built := built[jwk.kid.value := jwk];
        }
      }
      assert r.keys[..|r.keys|] == r.keys;
      keys, fetchedAt := built, Some(at);
      ok := true;
    }

    method GetKey(x: Inputs, whileFirst: Cache, whileSecond: Cache) returns (r: Result)
      modifies this
      ensures (State(), r) == Amid(old(State()), config, x, whileFirst, whileSecond)
    {
      if fetchedAt.None? || x.staleAt - fetchedAt.value >= config.ttl {
        var ok := Refresh(x.first, x.firstAt, whileFirst);
        if !ok {
          return FetchFailed;
        }
      }
      if x.kid !in keys && (fetchedAt.None? || x.unknownAt - fetchedAt.value >= config.minInterval) {
        var ok := Refresh(x.second, x.secondAt, whileSecond);
        if !ok {
          return FetchFailed;
        }
      }
      if x.kid !in keys {
        return UnknownKey;
      }
      return Key(keys[x.kid]);
    }
  }

  /** When a call fetches, in seconds since the last fetch: first of all when the TTL has passed, or nothing
      was ever fetched; otherwise when the id is absent and the minimum interval has passed. */
  lemma FetchDecisions(c: Cache, g: Config, kid: string, staleAt: real, unknownAt: real)
    ensures c.fetchedAt.None? ==> OnCall(c, g, kid, staleAt, unknownAt) == Await(false)
    ensures c.fetchedAt.Some? ==>
              var f, next := c.fetchedAt.value, OnCall(c, g, kid, staleAt, unknownAt);
              && (next == Await(false) <==> staleAt - f >= g.ttl)
              && (next == Await(true) <==> staleAt - f < g.ttl && kid !in c.keys && unknownAt - f >= g.minInterval)
              && (next.Answer? ==> next.r == if kid in c.keys then Key(c.keys[kid]) else UnknownKey)
  {
  }

  /** A fetch that lands fails the call, or fills the cache from its payload. Then a served id is answered
      with its key; an id not served is looked up once more only by a first fetch, and only if the minimum
      interval has passed since. */
  lemma LandingDecisions(c: Cache, g: Config, kid: string, second: bool, r: Response, at: real, unknownAt: real)
    ensures r.Failed? ==> OnLand(c, g, kid, second, r, at, unknownAt) == (c, Answer(FetchFailed))
    ensures r.Payload? ==>
              var keys, l := KeysOf(r.keys), OnLand(c, g, kid, second, r, at, unknownAt);
              && l.0 == Cache(keys, Some(at))
              && (kid in keys ==> l.1 == Answer(Key(keys[kid])))
              && (kid !in keys ==>
                   l.1 == if !second && unknownAt - at >= g.minInterval then Await(true) else Answer(UnknownKey))
  {
  }

  /** A key that the endpoint serves throughout the call is found exactly when the cache holds one for its
      id, or nothing was ever fetched, or the TTL or the minimum interval has passed since; otherwise the
      id is unknown. Once the TTL has passed it is the key now served. */
  lemma ServedKeyIsFoundIff(c: Cache, g: Config, x: Inputs, served: seq<Jwk>)
    requires x.first == Payload(served) && x.second == x.first && x.kid in KeysOf(served)
    ensures ResultOf(c, g, x).Key? <==>
              || x.kid in c.keys || c.fetchedAt.None?
              || x.staleAt - c.fetchedAt.value >= g.ttl || x.unknownAt - c.fetchedAt.value >= g.minInterval
    ensures !ResultOf(c, g, x).Key? ==> ResultOf(c, g, x) == UnknownKey && AfterCall(c, g, x) == c
    ensures c.fetchedAt.None? || x.staleAt - c.fetchedAt.value >= g.ttl ==>
              ResultOf(c, g, x) == Key(KeysOf(served)[x.kid])
  {
  }

  // ---- Runs of calls made one at a time ------------------------------------------------------------

  /** The fetches of a run of get_key calls, in order. */
  function Fetches(c: Cache, g: Config, xs: seq<Inputs>): seq<Fetch>
    decreases |xs|
  {
    if xs == [] then []
    else [FirstFetch(c, g, xs[0]), SecondFetch(c, g, xs[0])] + Fetches(AfterCall(c, g, xs[0]), g, xs[1..])
  }

  function AfterCalls(c: Cache, g: Config, xs: seq<Inputs>): Cache
    decreases |xs|
  {
    if xs == [] then c else AfterCalls(AfterCall(c, g, xs[0]), g, xs[1..])
  }

  /** The clock does not run backwards, within a call or from one to the next. */
  predicate Monotone(xs: seq<Inputs>, from: real)
    decreases |xs|
  {
    xs == [] ||
    (from <= xs[0].staleAt <= xs[0].firstAt <= xs[0].unknownAt <= xs[0].secondAt && Monotone(xs[1..], xs[0].secondAt))
  }

  function Gap(g: Config): real { if g.ttl <= g.minInterval then g.ttl else g.minInterval }

  /** Each successful fetch in `fs` is at least `gap` after the successful one before it, the one at
      `last` included. */
  predicate Spaced(last: Option<real>, fs: seq<Fetch>, gap: real)
    decreases |fs|
  {
    fs == [] ||
    (if fs[0].Success?
     then (last.Some? ==> fs[0].at - last.value >= gap) && Spaced(Some(fs[0].at), fs[1..], gap)
     else Spaced(last, fs[1..], gap))
  }

  /** Over any run of get_key calls, successful fetches are at least the smaller of the TTL and the
      minimum interval apart. */
  lemma {:induction false} FetchesAreSpaced(c: Cache, g: Config, xs: seq<Inputs>, from: real)
    requires Monotone(xs, from)
    ensures Spaced(c.fetchedAt, Fetches(c, g, xs), Gap(g))
    decreases |xs|
  {
    if xs != [] {
      var x := xs[0];
      var f1, f2 := FirstFetch(c, g, x), SecondFetch(c, g, x);
      var c1, c2 := Refreshed(c, f1), AfterCall(c, g, x);
      FetchesAreSpaced(c2, g, xs[1..], x.secondAt);
      var rest := Fetches(c2, g, xs[1..]);
      var fs := Fetches(c, g, xs);
      assert fs[0] == f1 && fs[1..] == [f2] + rest && ([f2] + rest)[1..] == rest;
      assert Spaced(c1.fetchedAt, [f2] + rest, Gap(g));
    }
  }

  /** The payload of the last successful fetch, starting from the payload behind the cache. */
  function LastPayload(start: seq<Jwk>, fs: seq<Fetch>): seq<Jwk>
    decreases |fs|
  {
    if fs == [] then start else LastPayload(if fs[0].Success? then fs[0].payload else start, fs[1..])
  }

  lemma {:induction false} CacheHoldsLastPayload(c: Cache, g: Config, xs: seq<Inputs>, start: seq<Jwk>)
    requires c.keys == KeysOf(start)
    ensures AfterCalls(c, g, xs).keys == KeysOf(LastPayload(start, Fetches(c, g, xs)))
    decreases |xs|
  {
    if xs != [] {
      var f1, f2 := FirstFetch(c, g, xs[0]), SecondFetch(c, g, xs[0]);
      var rest := Fetches(AfterCall(c, g, xs[0]), g, xs[1..]);
      var p1 := if f1.Success? then f1.payload else start;
      var p2 := if f2.Success? then f2.payload else p1;
      CacheHoldsLastPayload(AfterCall(c, g, xs[0]), g, xs[1..], p2);
      var fs := Fetches(c, g, xs);
      assert fs[0] == f1 && fs[1..] == [f2] + rest && ([f2] + rest)[1..] == rest;
    }
  }

  /** A key that get_key returns is an entry of the last successful fetch, the last one there with
      the id asked for. */
  lemma ReturnedKeyIsFromLastFetch(g: Config, xs: seq<Inputs>, x: Inputs)
    requires ResultOf(AfterCalls(EMPTY, g, xs), g, x).Key?
    ensures var payload := LastPayload([], Fetches(EMPTY, g, xs + [x]));
            exists i :: 0 <= i < |payload| && payload[i] == ResultOf(AfterCalls(EMPTY, g, xs), g, x).jwk
                        && payload[i].kid == Some(x.kid)
                        && forall j :: i < j < |payload| ==> payload[j].kid != Some(x.kid)
  {
    CallsConcat(EMPTY, g, xs, x);
    CacheHoldsLastPayload(EMPTY, g, xs + [x], []);
    KeysOfIsLastEntry(LastPayload([], Fetches(EMPTY, g, xs + [x])), x.kid);
  }

  lemma {:induction false} CallsConcat(c: Cache, g: Config, xs: seq<Inputs>, x: Inputs)
    ensures AfterCalls(c, g, xs + [x]) == AfterCall(AfterCalls(c, g, xs), g, x)
    decreases |xs|
  {
    if xs == [] {
      assert xs + [x] == [x];
    } else {
      assert (xs + [x])[0] == xs[0] && (xs + [x])[1..] == xs[1..] + [x];
      CallsConcat(AfterCall(c, g, xs[0]), g, xs[1..], x);
    }
  }

  // ---- What the minimum interval does and does not promise ---------------------------------------------

  /** Two in `ttl` seconds, when that is less than the interval: both fetches succeed. */
  function TwoCalls(g: Config): seq<Inputs> {
    [Inputs("k", 0.0, Payload([]), 0.0, 0.0, Payload([]), 0.0),
     Inputs("k", g.ttl, Payload([]), g.ttl, g.ttl, Payload([]), g.ttl)]
  }

  predicate KeepsInterval(g: Config, xs: seq<Inputs>, from: real) {
    Monotone(xs, from) ==> Spaced(None, Fetches(EMPTY, g, xs), g.minInterval)
  }

  /** In every run successful fetches keep the minimum interval exactly when the TTL is not shorter:
      a stale cache is fetched without regard to the interval. */
  lemma SpacedByIntervalIff(g: Config)
    requires 0.0 < g.ttl && 0.0 < g.minInterval
    ensures (forall xs, from :: KeepsInterval(g, xs, from)) <==> g.minInterval <= g.ttl
  {
    forall xs, from | Monotone(xs, from)
      ensures Gap(g) == g.minInterval ==> KeepsInterval(g, xs, from)
    {
      FetchesAreSpaced(EMPTY, g, xs, from);
    }
    if g.ttl < g.minInterval {
      var xs := TwoCalls(g);
      var c := AfterCall(EMPTY, g, xs[0]);
      assert xs[1..][1..] == [] && Monotone(xs[1..], 0.0) && Monotone(xs, 0.0);
      assert Fetches(c, g, xs[1..]) == [Success(g.ttl, []), Skipped] + [];
      assert Fetches(EMPTY, g, xs) == [Success(0.0, []), Skipped] + [Success(g.ttl, []), Skipped];
      TwoSuccessesApart(g.ttl, g.minInterval);
      assert !KeepsInterval(g, xs, 0.0);
    }
  }

  lemma TwoSuccessesApart(at: real, gap: real)
    requires at < gap
    ensures !Spaced(None, [Success(0.0, []), Skipped] + [Success(at, []), Skipped], gap)
  {
    var fs := [Success(0.0, []), Skipped] + [Success(at, []), Skipped];
    assert fs[0] == Success(0.0, []) && fs[1..][0] == Skipped && fs[1..][1..][0] == Success(at, []);
    assert !Spaced(Some(0.0), fs[1..][1..], gap);
    assert !Spaced(Some(0.0), fs[1..], gap);
  }

  /** The call has reason to fetch. */
  predicate Wants(c: Cache, g: Config, x: Inputs) {
    Stale(c, g, x.staleAt) || (x.kid !in c.keys && MayRefresh(c, g, x.unknownAt))
  }

  /** For every cache, a call that fetched, made again at once, fetches again exactly when it failed:
      after a failure the cache is as stale, or the id as unknown, as before. "At once" only matters
      after a success: the smaller of the two intervals has not passed. */
  lemma RepeatFetchesIffFailed(c: Cache, g: Config, x: Inputs, again: Inputs)
    requires Wants(c, g, x) && again.kid == x.kid
    requires x.staleAt <= again.staleAt <= again.unknownAt && x.unknownAt <= again.unknownAt
    requires var d := AfterCall(c, g, x);
             !ResultOf(c, g, x).FetchFailed? && d.fetchedAt.Some? ==> again.unknownAt - d.fetchedAt.value < Gap(g)
    ensures Wants(AfterCall(c, g, x), g, again) <==> ResultOf(c, g, x).FetchFailed?
  {
  }

  /** How often the endpoint was asked. */
  function Tries(fs: seq<Fetch>): nat
    decreases |fs|
  {
    if fs == [] then 0 else Asked(fs[0]) + Tries(fs[1..])
  }

  function Asked(f: Fetch): nat { if f.Skipped? then 0 else 1 }

  function AskedBy(c: Cache, g: Config, x: Inputs): nat { Asked(FirstFetch(c, g, x)) + Asked(SecondFetch(c, g, x)) }

  lemma TriesOfRun(c: Cache, g: Config, xs: seq<Inputs>)
    requires xs != []
    ensures Tries(Fetches(c, g, xs))
            == AskedBy(c, g, xs[0]) + Tries(Fetches(AfterCall(c, g, xs[0]), g, xs[1..]))
  {
    var f1, f2, rest := FirstFetch(c, g, xs[0]), SecondFetch(c, g, xs[0]), Fetches(AfterCall(c, g, xs[0]), g, xs[1..]);
    var fs := Fetches(c, g, xs);
    assert fs[0] == f1 && fs[1..] == [f2] + rest && ([f2] + rest)[1..] == rest;
    assert Tries([f2] + rest) == Asked(f2) + Tries(rest);
  }

  /** While the endpoint fails, every call with reason to fetch does: a cache never filled, a stale one,
      or one without the key asked for, however close together the calls are. */
  lemma {:induction false} FailuresAreNotSpaced(c: Cache, g: Config, xs: seq<Inputs>)
    requires forall x :: x in xs ==> Wants(c, g, x) && x.first.Failed? && x.second.Failed?
    ensures AfterCalls(c, g, xs) == c
    ensures Tries(Fetches(c, g, xs)) == |xs|
    decreases |xs|
  {
    if xs != [] {
      assert xs[0] in xs && forall x :: x in xs[1..] ==> x in xs;
      FailuresAreNotSpaced(c, g, xs[1..]);
      TriesOfRun(c, g, xs);
    }
  }

  /** All of the run's clock readings lie within less than the smaller of TTL and minimum interval. */
  predicate Brief(xs: seq<Inputs>, from: real, g: Config) {
    Monotone(xs, from) && forall x :: x in xs ==> from <= x.staleAt && x.secondAt < from + Gap(g)
  }

  lemma BriefTail(xs: seq<Inputs>, from: real, g: Config)
    requires Brief(xs, from, g) && xs != []
    ensures Brief(xs[1..], from, g)
  {
    assert xs[0] in xs && forall x :: x in xs[1..] ==> x in xs;
    if |xs| > 1 {
      assert Monotone(xs[1..], xs[0].secondAt);
    }
  }

  lemma {:induction false} NoTriesIff(c: Cache, g: Config, xs: seq<Inputs>)
    ensures Tries(Fetches(c, g, xs)) == 0 <==> forall x :: x in xs ==> !Wants(c, g, x)
    decreases |xs|
  {
    if xs != [] {
      TriesOfRun(c, g, xs);
      assert xs[0] in xs && xs == [xs[0]] + xs[1..];
      if !Wants(c, g, xs[0]) {
        NoTriesIff(c, g, xs[1..]);
      }
    }
  }

  /** The first call with reason to fetch fails, and a later one has reason to fetch as well. */
  predicate RetriedAfterFailure(c: Cache, g: Config, xs: seq<Inputs>)
    decreases |xs|
  {
    xs != [] &&
    if !Wants(c, g, xs[0]) then RetriedAfterFailure(c, g, xs[1..])
    else ResultOf(c, g, xs[0]).FetchFailed? && exists x :: x in xs[1..] && Wants(c, g, x)
  }

  /** A call inside a brief stretch asks at most once; a success leaves a fresh cache, a failure the old. */
  lemma BriefCall(c: Cache, g: Config, x: Inputs, from: real)
    requires from <= x.staleAt <= x.firstAt <= x.unknownAt <= x.secondAt < from + Gap(g)
    ensures AskedBy(c, g, x) == if Wants(c, g, x) then 1 else 0
    ensures !Wants(c, g, x) || ResultOf(c, g, x).FetchFailed? ==> AfterCall(c, g, x) == c
    ensures Wants(c, g, x) && !ResultOf(c, g, x).FetchFailed? ==>
              AfterCall(c, g, x).fetchedAt.Some? && from <= AfterCall(c, g, x).fetchedAt.value
  {
  }

  /** "At most once per interval", for every cache, run of calls and behaviour of the endpoint: within
      less than the smaller interval the endpoint is asked at most once exactly when the first call to
      ask did not fail, or no later call had reason to ask. */
  lemma {:induction false} AtMostOneFetchIff(c: Cache, g: Config, xs: seq<Inputs>, from: real)
    requires Brief(xs, from, g)
    ensures Tries(Fetches(c, g, xs)) <= 1 <==> !RetriedAfterFailure(c, g, xs)
    decreases |xs|
  {
    if xs != [] {
      var x, d := xs[0], AfterCall(c, g, xs[0]);
      assert x in xs && forall y :: y in xs[1..] ==> y in xs;
      BriefCall(c, g, x, from);
      BriefTail(xs, from, g);
      TriesOfRun(c, g, xs);
      NoTriesIff(d, g, xs[1..]);
      if !Wants(c, g, x) {
        AtMostOneFetchIff(c, g, xs[1..], from);
      } else if !ResultOf(c, g, x).FetchFailed? {
        FreshCacheWantsNothing(d, g, xs[1..], from);
      }
    }
  }

  lemma {:induction false} FreshCacheWantsNothing(c: Cache, g: Config, xs: seq<Inputs>, from: real)
    requires c.fetchedAt.Some? && from <= c.fetchedAt.value && Brief(xs, from, g)
    ensures forall x :: x in xs ==> !Wants(c, g, x)
    decreases |xs|
  {
    if xs != [] {
      BriefTail(xs, from, g);
      FreshCacheWantsNothing(c, g, xs[1..], from);
      assert xs[0] in xs && xs == [xs[0]] + xs[1..];
    }
  }
}
