/** One JWKS client shared by overlapping get_key calls: while a call awaits its fetch, others run.

    A call is the moment it checks the cache and, for each fetch it makes, the moment the fetch lands;
    between two such moments nothing of it runs. Any number of fetches may be in flight. */
module JwksOverlap {
  import opened Wrappers
  import opened JwksCache

  type Cid = nat

  datatype Flight = Flight(kid: string, second: bool, since: real)

  /** A successful fetch: when the call decided to make it, and when it landed. */
  datatype Landing = Landing(since: real, at: real, payload: seq<Jwk>)

  /** `landed` is history that no event reads. */
  datatype State = State(cache: Cache, flights: map<Cid, Flight>, landed: seq<Landing>)

  /** `at` and `later` are the clock readings of the event, in order. */
  datatype Event =
    | Call(id: Cid, kid: string, at: real, later: real)
    | Land(id: Cid, response: Response, at: real, later: real)

  predicate Enabled(s: State, e: Event) { if e.Call? then e.id !in s.flights else e.id in s.flights }

  /** What the call does after the event. */
  function NextOf(s: State, g: Config, e: Event): Next
    requires Enabled(s, e)
  {
    match e
    case Call(_, kid, at, later) => OnCall(s.cache, g, kid, at, later)
    case Land(id, r, at, later) => OnLand(s.cache, g, s.flights[id].kid, s.flights[id].second, r, at, later).1
  }

  predicate Begins(s: State, g: Config, e: Event)
    requires Enabled(s, e)
  {
    NextOf(s, g, e).Await?
  }

  function Step(s: State, g: Config, e: Event): State
    requires Enabled(s, e)
  {
    var next := NextOf(s, g, e);
    match e
    case Call(id, kid, at, later) =>
      if next.Answer? then s
      else s.(flights := s.flights[id := Flight(kid, next.second, if next.second then later else at)])
    case Land(id, r, at, later) =>
      var f := s.flights[id];
      State(OnLand(s.cache, g, f.kid, f.second, r, at, later).0,
            if next.Await? then s.flights[id := Flight(f.kid, next.second, later)] else s.flights - {id},
            if r.Payload? then s.landed + [Landing(f.since, at, r.keys)] else s.landed)
  }

  predicate Run(s: State, g: Config, es: seq<Event>)
    decreases |es|
  {
    es == [] || (Enabled(s, es[0]) && Run(Step(s, g, es[0]), g, es[1..]))
  }

  function After(s: State, g: Config, es: seq<Event>): State
    requires Run(s, g, es)
    decreases |es|
  {
    if es == [] then s else After(Step(s, g, es[0]), g, es[1..])
  }

  predicate Clocked(es: seq<Event>, from: real)
    decreases |es|
  {
    es == [] || (from <= es[0].at <= es[0].later && Clocked(es[1..], es[0].later))
  }

  function Opening(c: Cache): State { State(c, map[], []) }

  // ---- Fetches close together overlap ----------------------------------------------------------------

  /** The fetch begun at `since` was already under way when `l` landed, or begun a whole gap later. */
  predicate Clear(since: real, l: Landing, gap: real) { since <= l.at || since >= l.at + gap }

  predicate LandedInOrder(s: State, g: Config) {
    forall i, j :: 0 <= i < j < |s.landed| ==>
      s.landed[i].at <= s.landed[j].at && Clear(s.landed[j].since, s.landed[i], Gap(g))
  }

  predicate FlightsClear(s: State, g: Config, now: real) {
    forall id :: id in s.flights ==>
      s.flights[id].since <= now && forall i :: 0 <= i < |s.landed| ==> Clear(s.flights[id].since, s.landed[i], Gap(g))
  }

  predicate CacheIsLatest(s: State, now: real) {
    && (s.cache.fetchedAt.Some? ==> s.cache.fetchedAt.value <= now)
    && (forall i :: 0 <= i < |s.landed| ==>
         s.cache.fetchedAt.Some? && s.landed[i].since <= s.landed[i].at <= s.cache.fetchedAt.value)
  }

  predicate Inv(s: State, g: Config, now: real) {
    LandedInOrder(s, g) && FlightsClear(s, g, now) && CacheIsLatest(s, now)
  }

  lemma StepKeepsLanded(s: State, g: Config, e: Event, now: real)
    requires Inv(s, g, now) && Enabled(s, e) && now <= e.at <= e.later
    ensures LandedInOrder(Step(s, g, e), g) && CacheIsLatest(Step(s, g, e), e.later)
  {
    var ls := Step(s, g, e).landed;
    assert forall i :: 0 <= i < |ls| ==> i == |s.landed| || ls[i] == s.landed[i];
  }

  /** A call that begins a fetch does so a whole gap after every fetch that has landed. */
  lemma BegunIsClear(s: State, g: Config, e: Event, now: real)
    requires CacheIsLatest(s, now) && Enabled(s, e) && now <= e.at <= e.later && Begins(s, g, e)
    ensures var t := Step(s, g, e);
            && e.id in t.flights && t.flights[e.id].since <= e.later
            && forall i :: 0 <= i < |t.landed| ==> t.flights[e.id].since >= t.landed[i].at + Gap(g)
  {
    var t := Step(s, g, e);
    assert forall i :: 0 <= i < |t.landed| ==> t.landed[i].at <= t.cache.fetchedAt.value;
  }

  lemma StepKeepsFlights(s: State, g: Config, e: Event, now: real)
    requires Inv(s, g, now) && Enabled(s, e) && now <= e.at <= e.later
    ensures FlightsClear(Step(s, g, e), g, e.later)
  {
    var t := Step(s, g, e);
    forall id | id in t.flights
      ensures t.flights[id].since <= e.later
      ensures forall i :: 0 <= i < |t.landed| ==> Clear(t.flights[id].since, t.landed[i], Gap(g))
    {
      if id == e.id && Begins(s, g, e) {
        BegunIsClear(s, g, e, now);
      } else {
        assert id in s.flights && t.flights[id] == s.flights[id];
        assert forall i :: 0 <= i < |t.landed| ==> i == |s.landed| || t.landed[i] == s.landed[i];
      }
    }
  }

  lemma StepKeepsInv(s: State, g: Config, e: Event, now: real)
    requires Inv(s, g, now) && Enabled(s, e) && now <= e.at <= e.later
    ensures Inv(Step(s, g, e), g, e.later)
  {
    StepKeepsLanded(s, g, e, now);
    StepKeepsFlights(s, g, e, now);
  }

  lemma {:induction false} RunKeepsInv(s: State, g: Config, es: seq<Event>, now: real) returns (end: real)
    requires Inv(s, g, now) && Run(s, g, es) && Clocked(es, now)
    ensures Inv(After(s, g, es), g, end)
    decreases |es|
  {
    if es == [] {
      end := now;
    } else {
      StepKeepsInv(s, g, es[0], now);
      end := RunKeepsInv(Step(s, g, es[0]), g, es[1..], es[0].later);
    }
  }

  /** Nothing fetched before `now`. */
  predicate NotAhead(c: Cache, now: real) { c.fetchedAt.Some? ==> c.fetchedAt.value <= now }

  /** Whatever calls overlap and whatever fetches fail: of two successful fetches that land less than the
      smaller of TTL and minimum interval apart, the later to land was under way when the earlier landed. */
  lemma CloseFetchesOverlap(c: Cache, g: Config, es: seq<Event>, from: real, i: nat, j: nat)
    requires Run(Opening(c), g, es) && Clocked(es, from) && NotAhead(c, from)
    requires i < j < |After(Opening(c), g, es).landed|
    ensures var l := After(Opening(c), g, es).landed;
            l[i].at <= l[j].at && (l[j].at - l[i].at < Gap(g) ==> l[j].since <= l[i].at)
  {
    var end := RunKeepsInv(Opening(c), g, es, from);
  }

  predicate Apart(ls: seq<Landing>, gap: real) {
    forall i, j :: 0 <= i < j < |ls| ==> ls[j].at - ls[i].at >= gap
  }

  predicate OverlappingApart(ls: seq<Landing>, gap: real) {
    forall i, j :: 0 <= i < j < |ls| && ls[j].since <= ls[i].at ==> ls[j].at - ls[i].at >= gap
  }

  /** So a run keeps the smaller interval exactly when its overlapping fetches do. */
  lemma ApartIffOverlappingAre(c: Cache, g: Config, es: seq<Event>, from: real)
    requires Run(Opening(c), g, es) && Clocked(es, from) && NotAhead(c, from)
    ensures var ls := After(Opening(c), g, es).landed; Apart(ls, Gap(g)) <==> OverlappingApart(ls, Gap(g))
  {
    var ls := After(Opening(c), g, es).landed;
    forall i, j | 0 <= i < j < |ls|
      ensures ls[j].at - ls[i].at < Gap(g) ==> ls[j].since <= ls[i].at
    {
      CloseFetchesOverlap(c, g, es, from, i, j);
    }
  }

  // ---- One fetch at a time ------------------------------------------------------------------------------

  /** No fetch is begun while another is under way. */
  predicate Serial(s: State, g: Config, es: seq<Event>)
    requires Run(s, g, es)
    decreases |es|
  {
    es == [] || ((Begins(s, g, es[0]) ==> s.flights.Keys <= {es[0].id}) && Serial(Step(s, g, es[0]), g, es[1..]))
  }

  predicate SerialInv(s: State, g: Config) {
    && (forall a, b :: a in s.flights && b in s.flights ==> a == b)
    && Apart(s.landed, Gap(g))
    && (forall id, i :: id in s.flights && 0 <= i < |s.landed| ==> s.flights[id].since >= s.landed[i].at + Gap(g))
  }

  lemma SerialLandingIsApart(s: State, g: Config, e: Event, now: real)
    requires Inv(s, g, now) && SerialInv(s, g) && Enabled(s, e) && now <= e.at <= e.later
    ensures Apart(Step(s, g, e).landed, Gap(g))
  {
    var ls := Step(s, g, e).landed;
    assert forall i :: 0 <= i < |ls| ==> i == |s.landed| || ls[i] == s.landed[i];
  }

  lemma StepKeepsSerial(s: State, g: Config, e: Event, now: real)
    requires Inv(s, g, now) && SerialInv(s, g) && Enabled(s, e) && now <= e.at <= e.later
    requires Begins(s, g, e) ==> s.flights.Keys <= {e.id}
    ensures SerialInv(Step(s, g, e), g)
  {
    var t := Step(s, g, e);
    SerialLandingIsApart(s, g, e, now);
    if Begins(s, g, e) {
      BegunIsClear(s, g, e, now);
      assert forall id :: id in t.flights ==> id == e.id;
    } else {
      assert t.flights.Keys <= s.flights.Keys;
      assert e.Land? ==> forall id :: id in t.flights ==> id != e.id && id in s.flights;
      assert e.Land? ==> t.flights == map[];
    }
  }

  lemma {:induction false} SerialRunIsApart(s: State, g: Config, es: seq<Event>, now: real)
    requires Inv(s, g, now) && SerialInv(s, g) && Run(s, g, es) && Clocked(es, now) && Serial(s, g, es)
    ensures Apart(After(s, g, es).landed, Gap(g))
    decreases |es|
  {
    if es != [] {
      StepKeepsInv(s, g, es[0], now);
      StepKeepsSerial(s, g, es[0], now);
      SerialRunIsApart(Step(s, g, es[0]), g, es[1..], es[0].later);
    }
  }

  /** With one fetch under way at a time the interval holds. */
  lemma SerialFetchesAreApart(c: Cache, g: Config, es: seq<Event>, from: real)
    requires Run(Opening(c), g, es) && Clocked(es, from) && NotAhead(c, from) && Serial(Opening(c), g, es)
    ensures Apart(After(Opening(c), g, es).landed, Gap(g))
  {
    SerialRunIsApart(Opening(c), g, es, from);
  }

  function SerialPair(g: Config): seq<Event> {
    [Call(0, "k", 0.0, 0.0), Land(0, Payload([]), 0.0, 0.0),
     Call(1, "k", g.ttl, g.ttl), Land(1, Payload([]), g.ttl, g.ttl)]
  }

  ghost predicate KeepsInterval(g: Config, es: seq<Event>, from: real) {
    Run(Opening(EMPTY), g, es) && Clocked(es, from) && Serial(Opening(EMPTY), g, es) ==>
      Apart(After(Opening(EMPTY), g, es).landed, g.minInterval)
  }

  /** And the minimum interval itself holds with one fetch under way at a time exactly when the TTL is not
      shorter. */
  lemma SerialKeepsIntervalIff(g: Config)
    requires 0.0 < g.ttl && 0.0 < g.minInterval
    ensures (forall es, from :: KeepsInterval(g, es, from)) <==> g.minInterval <= g.ttl
  {
    if g.minInterval <= g.ttl {
      forall es, from
        ensures KeepsInterval(g, es, from)
      {
        if Run(Opening(EMPTY), g, es) && Clocked(es, from) && Serial(Opening(EMPTY), g, es) {
          SerialFetchesAreApart(EMPTY, g, es, from);
        }
      }
    } else {
      SerialPairLands(g);
      var ls := After(Opening(EMPTY), g, SerialPair(g)).landed;
      assert ls[1].at - ls[0].at < g.minInterval;
      assert !KeepsInterval(g, SerialPair(g), 0.0);
    }
  }

  lemma SerialPairLands(g: Config)
    requires 0.0 < g.ttl < g.minInterval
    ensures Run(Opening(EMPTY), g, SerialPair(g)) && Clocked(SerialPair(g), 0.0)
    ensures Serial(Opening(EMPTY), g, SerialPair(g))
    ensures After(Opening(EMPTY), g, SerialPair(g)).landed == [Landing(0.0, 0.0, []), Landing(g.ttl, g.ttl, [])]
  {
    var es := SerialPair(g);
    var s0 := Opening(EMPTY);
    var s1 := s0.(flights := map[0 := Flight("k", false, 0.0)]);
    var s2 := State(Cache(map[], Some(0.0)), map[], [Landing(0.0, 0.0, [])]);
    assert Step(s0, g, es[0]) == s1 && Step(s1, g, es[1]) == s2;
    var s3 := s2.(flights := map[1 := Flight("k", false, g.ttl)]);
    var s4 := State(Cache(map[], Some(g.ttl)), map[], [Landing(0.0, 0.0, []), Landing(g.ttl, g.ttl, [])]);
    assert Step(s2, g, es[2]) == s3 && Step(s3, g, es[3]) == s4;
    FirstStep(s3, g, es[3..]);
    FirstStep(s2, g, es[2..]);
    FirstStep(s1, g, es[1..]);
    FirstStep(s0, g, es);
    assert es[1..][1..] == es[2..] && es[2..][1..] == es[3..] && es[3..][1..] == [];
    assert Clocked(es[3..], g.ttl) && Clocked(es[2..], 0.0) && Clocked(es[1..], 0.0);
    assert Serial(s3, g, es[3..]) && Serial(s2, g, es[2..]) && Serial(s1, g, es[1..]);
  }

  lemma FirstStep(s: State, g: Config, es: seq<Event>)
    requires es != []
    ensures Run(s, g, es) <==> Enabled(s, es[0]) && Run(Step(s, g, es[0]), g, es[1..])
    ensures Run(s, g, es) ==> After(s, g, es) == After(Step(s, g, es[0]), g, es[1..])
  {
  }

  // ---- Two at once ----------------------------------------------------------------------------------------

  function TwoAtOnce(): seq<Event> {
    [Call(0, "k", 0.0, 0.0), Call(1, "k", 0.0, 0.0), Land(0, Payload([]), 1.0, 1.0), Land(1, Payload([]), 1.0, 1.0)]
  }

  /** For every config with positive intervals, whichever is smaller: two calls on a cold cache overlap,
      both fetches succeed, and they land at the same instant. */
  lemma OverlapBreaksInterval(g: Config)
    requires 0.0 < g.ttl && 0.0 < g.minInterval
    ensures Run(Opening(EMPTY), g, TwoAtOnce()) && Clocked(TwoAtOnce(), 0.0)
    ensures var ls := After(Opening(EMPTY), g, TwoAtOnce()).landed;
            |ls| == 2 && ls[0].at == ls[1].at && !Apart(ls, Gap(g)) && !Apart(ls, g.minInterval)
  {
    var es := TwoAtOnce();
    var s0 := Opening(EMPTY);
    var s1 := s0.(flights := map[0 := Flight("k", false, 0.0)]);
    var s2 := s1.(flights := map[0 := Flight("k", false, 0.0), 1 := Flight("k", false, 0.0)]);
    assert Step(s0, g, es[0]) == s1 && Step(s1, g, es[1]) == s2;
    var s3 := State(Cache(map[], Some(1.0)), map[1 := Flight("k", false, 0.0)], [Landing(0.0, 1.0, [])]);
    assert Step(s2, g, es[2]) == s3;
    var s4 := State(Cache(map[], Some(1.0)), map[], [Landing(0.0, 1.0, []), Landing(0.0, 1.0, [])]);
    assert Step(s3, g, es[3]) == s4;
    FirstStep(s3, g, es[3..]);
    FirstStep(s2, g, es[2..]);
    FirstStep(s1, g, es[1..]);
    FirstStep(s0, g, es);
    assert es[1..][1..] == es[2..] && es[2..][1..] == es[3..] && es[3..][1..] == [];
    assert Clocked(es[3..], 1.0) && Clocked(es[2..], 0.0) && Clocked(es[1..], 0.0);
    assert After(s0, g, es) == s4;
  }

  // ---- How often the endpoint is asked -----------------------------------------------------------------------

  function Begun(s: State, g: Config, es: seq<Event>): nat
    requires Run(s, g, es)
    decreases |es|
  {
    if es == [] then 0 else (if Begins(s, g, es[0]) then 1 else 0) + Begun(Step(s, g, es[0]), g, es[1..])
  }

  /** The calls that come before the first fetch to succeed and have reason to fetch by the cache `c`. */
  function Askers(c: Cache, g: Config, es: seq<Event>): nat
    decreases |es|
  {
    if es == [] then 0
    else
      match es[0]
      case Call(_, kid, at, later) => (if OnCall(c, g, kid, at, later).Await? then 1 else 0) + Askers(c, g, es[1..])
      case Land(_, r, _, _) => if r.Payload? then 0 else Askers(c, g, es[1..])
  }

  /** All clock readings lie within less than the smaller of TTL and minimum interval. */
  predicate Within(es: seq<Event>, from: real, g: Config) {
    forall e :: e in es ==> from <= e.at <= e.later < from + Gap(g)
  }

  lemma {:induction false} NoneBegunAfterSuccess(s: State, g: Config, es: seq<Event>, from: real)
    requires Run(s, g, es) && Within(es, from, g) && s.cache.fetchedAt.Some? && from <= s.cache.fetchedAt.value
    ensures Begun(s, g, es) == 0
    decreases |es|
  {
    if es != [] {
      assert es[0] in es && forall e :: e in es[1..] ==> e in es;
      NoneBegunAfterSuccess(Step(s, g, es[0]), g, es[1..], from);
    }
  }

  /** "At most once per interval", with any calls overlapping and any fetches failing: in a run shorter
      than the smaller interval, from any cache and with any fetches under way, the endpoint is asked once
      by every call with reason to, up to the first fetch to succeed, and not at all after that. So it is
      asked at most once exactly when at most one such call comes before a fetch succeeds. */
  lemma {:induction false} BegunAreAskers(s: State, g: Config, es: seq<Event>, from: real)
    requires Run(s, g, es) && Within(es, from, g)
    ensures Begun(s, g, es) == Askers(s.cache, g, es)
    decreases |es|
  {
    if es != [] {
      assert es[0] in es && forall e :: e in es[1..] ==> e in es;
      if es[0].Land? && es[0].response.Payload? {
        NoneBegunAfterSuccess(Step(s, g, es[0]), g, es[1..], from);
      } else {
        BegunAreAskers(Step(s, g, es[0]), g, es[1..], from);
      }
    }
  }

  // ---- Where a returned key comes from ------------------------------------------------------------------------

  predicate HoldsLastLanding(s: State) {
    s.cache == if s.landed == [] then EMPTY
               else Cache(KeysOf(s.landed[|s.landed| - 1].payload), Some(s.landed[|s.landed| - 1].at))
  }

  lemma {:induction false} RunHoldsLastLanding(s: State, g: Config, es: seq<Event>)
    requires Run(s, g, es) && HoldsLastLanding(s)
    ensures HoldsLastLanding(After(s, g, es))
    decreases |es|
  {
    if es != [] {
      RunHoldsLastLanding(Step(s, g, es[0]), g, es[1..]);
    }
  }

  /** With calls overlapping too, a key that is returned is the last entry for its id in the payload of the
      last fetch to have landed by then, whichever call made that fetch. */
  lemma ReturnedKeyIsFromLastLanding(g: Config, es: seq<Event>, e: Event)
    requires Run(Opening(EMPTY), g, es) && Enabled(After(Opening(EMPTY), g, es), e)
    requires var next := NextOf(After(Opening(EMPTY), g, es), g, e); next.Answer? && next.r.Key?
    ensures var s := After(Opening(EMPTY), g, es);
            var kid, ls := if e.Call? then e.kid else s.flights[e.id].kid, Step(s, g, e).landed;
            && ls != []
            && var payload := ls[|ls| - 1].payload;
            exists i :: 0 <= i < |payload| && payload[i] == NextOf(s, g, e).r.jwk && payload[i].kid == Some(kid)
                        && forall j :: i < j < |payload| ==> payload[j].kid != Some(kid)
  {
    var s := After(Opening(EMPTY), g, es);
    RunHoldsLastLanding(Opening(EMPTY), g, es);
    var kid, t := if e.Call? then e.kid else s.flights[e.id].kid, Step(s, g, e);
    assert HoldsLastLanding(t) && kid in t.cache.keys;
    KeysOfIsLastEntry(t.landed[|t.landed| - 1].payload, kid);
  }

  // ---- What an event does, in seconds -------------------------------------------------------------------------

  /** A call waits for a first fetch, counted from its first reading, when nothing was fetched or the TTL has
      passed; for a second, counted from the other reading, when the id is absent and the minimum interval
      has passed. */
  lemma CallInSeconds(s: State, g: Config, e: Event)
    requires e.Call? && Enabled(s, e)
    ensures var t := Step(s, g, e);
            var stale := s.cache.fetchedAt.None? || e.at - s.cache.fetchedAt.value >= g.ttl;
            && t.cache == s.cache && t.landed == s.landed
            && (e.id in t.flights <==>
                 stale || (e.kid !in s.cache.keys && e.later - s.cache.fetchedAt.value >= g.minInterval))
            && (e.id in t.flights ==>
                 t.flights[e.id] == if stale then Flight(e.kid, false, e.at) else Flight(e.kid, true, e.later))
  {
  }

  /** A fetch that lands with a payload fills the cache as of its reading; the call goes on waiting only after
      a first fetch that did not bring its id, once the minimum interval has passed since that reading. */
  lemma LandInSeconds(s: State, g: Config, e: Event)
    requires e.Land? && Enabled(s, e)
    ensures var t, f := Step(s, g, e), s.flights[e.id];
            && (e.response.Failed? ==> t.cache == s.cache && t.landed == s.landed && e.id !in t.flights)
            && (e.response.Payload? ==>
                 && t.cache == Cache(KeysOf(e.response.keys), Some(e.at))
                 && t.landed == s.landed + [Landing(f.since, e.at, e.response.keys)]
                 && (e.id in t.flights <==>
                      !f.second && f.kid !in KeysOf(e.response.keys) && e.later - e.at >= g.minInterval)
                 && (e.id in t.flights ==> t.flights[e.id] == Flight(f.kid, true, e.later)))
  {
  }

  // ---- A served id does not stay unknown --------------------------------------------------------------------

  predicate LandsFor(e: Event, id: Cid) { e.Land? && e.id == id }

  predicate NoneLandsFor(es: seq<Event>, id: Cid) { forall e :: e in es ==> !LandsFor(e, id) }

  lemma {:induction false} FlightStays(s: State, g: Config, es: seq<Event>, id: Cid)
    requires Run(s, g, es) && id in s.flights && NoneLandsFor(es, id)
    ensures id in After(s, g, es).flights && After(s, g, es).flights[id] == s.flights[id]
    decreases |es|
  {
    if es != [] {
      assert es[0] in es && forall e :: e in es[1..] ==> e in es;
      FlightStays(Step(s, g, es[0]), g, es[1..], id);
    }
  }

  /** The payload carries the id. */
  predicate Serves(payload: seq<Jwk>, kid: string) {
    kid != "" && exists i :: 0 <= i < |payload| && payload[i].kid == Some(kid)
  }

  /** A call made before anything was fetched, or at least the minimum interval after the last fetch landed,
      answers with a key at once or fetches; and whatever other calls do meanwhile, when its fetch lands with
      a payload that serves its id it answers with a key of that payload, and when the fetch fails, so does
      the call. A signing key that is being served is never reported unknown for longer than the interval. */
  lemma ServedIdIsNotUnknown(g: Config, before: seq<Event>, call: Event, during: seq<Event>, land: Event)
    requires Run(Opening(EMPTY), g, before) && call.Call? && Enabled(After(Opening(EMPTY), g, before), call)
    requires var ls := After(Opening(EMPTY), g, before).landed;
             ls != [] ==> call.later - ls[|ls| - 1].at >= g.minInterval
    requires var s := Step(After(Opening(EMPTY), g, before), g, call);
             Run(s, g, during) && NoneLandsFor(during, call.id) && LandsFor(land, call.id)
    requires land.response.Payload? ==> Serves(land.response.keys, call.kid)
    ensures var s := After(Opening(EMPTY), g, before);
            var next := NextOf(s, g, call);
            && (next.Answer? ==> next.r.Key?)
            && (next.Await? ==>
                 var t := After(Step(s, g, call), g, during);
                 && Enabled(t, land) && NextOf(t, g, land).Answer?
                 && (land.response.Failed? ==> NextOf(t, g, land).r == FetchFailed)
                 && (land.response.Payload? ==>
                      NextOf(t, g, land).r.Key? && NextOf(t, g, land).r.jwk in land.response.keys
                      && NextOf(t, g, land).r.jwk.kid == Some(call.kid)))
  {
    var s := After(Opening(EMPTY), g, before);
    RunHoldsLastLanding(Opening(EMPTY), g, before);
    FetchDecisions(s.cache, g, call.kid, call.at, call.later);
    if NextOf(s, g, call).Await? {
      FlightStays(Step(s, g, call), g, during, call.id);
      var t := After(Step(s, g, call), g, during);
      var f := t.flights[call.id];
      LandingDecisions(t.cache, g, call.kid, f.second, land.response, land.at, land.later);
      if land.response.Payload? {
        KeysOfIsLastEntry(land.response.keys, call.kid);
      }
    }
  }
}
