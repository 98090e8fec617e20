/** Fixed-window counters: the in-memory backend, and the Redis backend as its script run on a
    model of the keys it uses. Time is in seconds; `now` is the clock reading of a check. */
module RateLimitBackend {
  import opened Wrappers

  datatype Window = Window(expiresAt: real, count: int)

  datatype BackendResult = BackendResult(count: int, remaining: int, resetAfter: int)

  function Ceil(x: real): int { -((-x).Floor) }

  function Max(a: int, b: int): int { if a >= b then a else b }

  // ---- The in-memory window ---------------------------------------------------------------------

  predicate Over(w: Option<Window>, now: real) { w.None? || now >= w.value.expiresAt }

  /** The window after one more request. */
  function Hit(w: Option<Window>, now: real, seconds: int): Window {
    if Over(w, now) then Window(now + seconds as real, 1) else w.value.(count := w.value.count + 1)
  }

  function ResultOf(w: Window, limit: int, now: real): BackendResult {
    BackendResult(w.count, Max(0, limit - w.count), Max(1, Ceil(w.expiresAt - now)))
  }

  function Lookup<T>(m: map<string, T>, key: string): Option<T> { if key in m then Some(m[key]) else None }

  class WindowRecord {
    const expiresAt: real
    var count: int

    constructor (expiresAt: real, count: int)
      ensures Value() == Window(expiresAt, count)
    {
      this.expiresAt, this.count := expiresAt, count;
    }

    function Value(): Window
      reads this
    {
      Window(expiresAt, count)
    }
  }

  class FakeRateLimiterBackend {
    var windows: map<string, WindowRecord>
    ghost var Repr: set<WindowRecord>

    /** No two keys share a window, so counting on one key leaves the others alone. */
    ghost predicate Valid()
      reads this
    {
      && (forall k :: k in windows ==> windows[k] in Repr)
      && (forall a, b :: a in windows && b in windows && windows[a] == windows[b] ==> a == b)
    }

    ghost function Contents(): map<string, Window>
      requires Valid()
      reads this, Repr
    {
      map k | k in windows :: windows[k].Value()
    }

    constructor ()
      ensures Valid() && Contents() == map[] && Repr == {}
    {
      windows, Repr := map[], {};
    }

    method Check(key: string, limit: int, seconds: int, now: real) returns (r: BackendResult)
      requires Valid()
      modifies this, Repr
      ensures Valid() && fresh(Repr - old(Repr))
      ensures var w := Hit(Lookup(old(Contents()), key), now, seconds);
              Contents() == old(Contents())[key := w] && r == ResultOf(w, limit, now)
    {
      var window: WindowRecord;
      if key !in windows || now >= windows[key].expiresAt {
        window := new WindowRecord(now + seconds as real, 1);
        Repr := Repr + {window};
        windows := windows[key := window];
      } else {
        window := windows[key];
        window.count := window.count + 1;
      }
      assert Contents() == old(Contents())[key := window.Value()];
      r := BackendResult(window.count, Max(0, limit - window.count), Max(1, Ceil(window.expiresAt - now)));
    }
  }

  // ---- The Redis key ----------------------------------------------------------------------------

  datatype RedisKey = RedisKey(count: int, expireAt: Option<real>)

  /** The key as a command run at `now` sees it: gone once its deadline is reached. */
  function Alive(k: Option<RedisKey>, now: real): Option<RedisKey> {
    if k.Some? && k.value.expireAt.Some? && now >= k.value.expireAt.value then None else k
  }

  function Incr(k: Option<RedisKey>): RedisKey {
    if k.None? then RedisKey(1, None) else k.value.(count := k.value.count + 1)
  }

  /** EXPIRE with a duration that is not positive deletes the key. */
  function ExpireIn(k: Option<RedisKey>, seconds: int, now: real): Option<RedisKey> {
    if k.None? || seconds <= 0 then None else Some(k.value.(expireAt := Some(now + seconds as real)))
  }

  /** TTL in whole seconds, rounded: -2 without the key, -1 without an expiry. */
  function Ttl(k: Option<RedisKey>, now: real): int {
    if k.None? then -2
    else if k.value.expireAt.None? then -1
    else (k.value.expireAt.value - now + 0.5).Floor
  }

  datatype ScriptResult = ScriptResult(key: Option<RedisKey>, count: int, ttl: int)

  /** The whole script on one key. */
  function Script(k: Option<RedisKey>, seconds: int, now: real): ScriptResult
  {
    var counted := Incr(Alive(k, now));
    var first := if counted.count == 1 then ExpireIn(Some(counted), seconds, now) else Some(counted);
    var ttl := Ttl(first, now);
    if ttl < 0 then ScriptResult(ExpireIn(first, seconds, now), counted.count, seconds)
    else ScriptResult(first, counted.count, ttl)
  }

  /** The commands the script calls, each on the stored keys at the frozen time of the script. */
  class RedisServer {
    var keys: map<string, RedisKey>

    constructor ()
      ensures keys == map[]
    {
      keys := map[];
    }

    function Seen(key: string, now: real): Option<RedisKey>
      reads this
    {
      Alive(Lookup(keys, key), now)
    }

    method INCR(key: string, now: real) returns (count: int)
      modifies this
      ensures keys == old(keys)[key := Incr(old(Seen(key, now)))] && count == keys[key].count
    {
      keys := keys[key := Incr(Seen(key, now))];
      count := keys[key].count;
    }

    method EXPIRE(key: string, seconds: int, now: real)
      modifies this
      ensures Lookup(keys, key) == ExpireIn(old(Lookup(keys, key)), seconds, now)
      ensures keys - {key} == old(keys) - {key}
    {
      if key in keys {
        if seconds <= 0 {
          keys := keys - {key};
        } else {
          keys := keys[key := keys[key].(expireAt := Some(now + seconds as real))];
        }
      }
    }

    /** The fixed-window script, in the order of its calls. */
    method RunScript(key: string, seconds: int, now: real) returns (count: int, ttl: int)
      modifies this
      ensures var r := Script(old(Lookup(keys, key)), seconds, now);
              && Lookup(keys, key) == r.key && count == r.count && ttl == r.ttl
              && keys - {key} == old(keys) - {key}
    {
      count := INCR(key, now);
      assert keys - {key} == old(keys) - {key};
      if count == 1 {
        EXPIRE(key, seconds, now);
      }
      ttl := Ttl(Lookup(keys, key), now);
      if ttl < 0 {
        EXPIRE(key, seconds, now);
        ttl := seconds;
      }
    }

    method Check(key: string, limit: int, seconds: int, now: real) returns (r: BackendResult)
      modifies this
      ensures var s := Script(old(Lookup(keys, key)), seconds, now);
              && Lookup(keys, key) == s.key && keys - {key} == old(keys) - {key}
              && r == BackendResult(s.count, Max(0, limit - s.count), Max(1, s.ttl))
    {
      var count, ttl := RunScript(key, seconds, now);
      r := BackendResult(count, Max(0, limit - count), Max(1, ttl));
    }
  }

  // ---- The script against the in-memory window --------------------------------------------------------

  /** At `now` and from then on the key and the window count the same requests. */
  predicate SameBucket(k: Option<RedisKey>, w: Option<Window>, now: real) {
    match Alive(k, now)
    case None => Over(w, now)
    case Some(a) => !Over(w, now) && a.expireAt == Some(w.value.expiresAt) && a.count == w.value.count
  }

  lemma SameBucketLasts(k: Option<RedisKey>, w: Option<Window>, now: real, later: real)
    requires SameBucket(k, w, now) && now <= later
    ensures SameBucket(k, w, later)
  {
  }

  lemma ScriptIsHit(k: Option<RedisKey>, w: Option<Window>, seconds: int, now: real)
    requires SameBucket(k, w, now) && (w.Some? && !Over(w, now) ==> w.value.count >= 1)
    ensures Script(k, seconds, now).count == Hit(w, now, seconds).count >= 1
    ensures SameBucket(Script(k, seconds, now).key, Some(Hit(w, now, seconds)), now)
  {
  }

  datatype Event =
    | Request(key: string, limit: int, seconds: int, at: real)
    | Evict(key: string, at: real)    // Redis drops an expired key on its own

  datatype Answer = Counted(count: int, remaining: int) | Silent

  function RedisStep(keys: map<string, RedisKey>, e: Event): (map<string, RedisKey>, Answer)
  {
    match e
    case Request(key, limit, seconds, at) =>
      var s := Script(Lookup(keys, key), seconds, at);
      (if s.key.Some? then keys[key := s.key.value] else keys - {key}, Counted(s.count, Max(0, limit - s.count)))
    case Evict(key, at) => (if Alive(Lookup(keys, key), at).None? then keys - {key} else keys, Silent)
  }

  function FakeStep(windows: map<string, Window>, e: Event): (map<string, Window>, Answer)
  {
    match e
    case Request(key, limit, seconds, at) =>
      var w := Hit(Lookup(windows, key), at, seconds);
      (windows[key := w], Counted(w.count, Max(0, limit - w.count)))
    case Evict(_, _) => (windows, Silent)
  }

  function RedisAnswers(keys: map<string, RedisKey>, es: seq<Event>): seq<Answer>
    decreases |es|
  {
    if es == [] then [] else var r := RedisStep(keys, es[0]); [r.1] + RedisAnswers(r.0, es[1..])
  }

  function FakeAnswers(windows: map<string, Window>, es: seq<Event>): seq<Answer>
    decreases |es|
  {
    if es == [] then [] else var r := FakeStep(windows, es[0]); [r.1] + FakeAnswers(r.0, es[1..])
  }

  /** The clock does not run backwards. */
  predicate Monotone(es: seq<Event>, from: real)
    decreases |es|
  {
    es == [] || (from <= es[0].at && Monotone(es[1..], es[0].at))
  }

  ghost predicate SameStore(keys: map<string, RedisKey>, windows: map<string, Window>, now: real) {
    && (forall key :: SameBucket(Lookup(keys, key), Lookup(windows, key), now))
    && (forall key :: key in windows ==> windows[key].count >= 1)
  }

  lemma StepsAgree(keys: map<string, RedisKey>, windows: map<string, Window>, e: Event, now: real)
    requires SameStore(keys, windows, now) && now <= e.at
    ensures RedisStep(keys, e).1 == FakeStep(windows, e).1
    ensures SameStore(RedisStep(keys, e).0, FakeStep(windows, e).0, e.at)
  {
    var keys', windows' := RedisStep(keys, e).0, FakeStep(windows, e).0;
    SameBucketLasts(Lookup(keys, e.key), Lookup(windows, e.key), now, e.at);
    if e.Request? {
      ScriptIsHit(Lookup(keys, e.key), Lookup(windows, e.key), e.seconds, e.at);
    }
    forall key
      ensures SameBucket(Lookup(keys', key), Lookup(windows', key), e.at)
    {
      if key != e.key {
        assert Lookup(keys', key) == Lookup(keys, key) && Lookup(windows', key) == Lookup(windows, key);
        SameBucketLasts(Lookup(keys, key), Lookup(windows, key), now, e.at);
      }
    }
  }

  lemma {:induction false} StoresAgree(keys: map<string, RedisKey>, windows: map<string, Window>, es: seq<Event>,
                                       now: real)
    requires SameStore(keys, windows, now) && Monotone(es, now)
    ensures RedisAnswers(keys, es) == FakeAnswers(windows, es)
    decreases |es|
  {
    if es != [] {
      StepsAgree(keys, windows, es[0], now);
      StoresAgree(RedisStep(keys, es[0]).0, FakeStep(windows, es[0]).0, es[1..], es[0].at);
    }
  }

  /** Any interleaving of clients gets the same counts and the same remaining from the script on
      Redis and from the in-memory windows, whatever windows and limits the checks name, zero and
      negative ones included, and whenever Redis evicts. */
  lemma ScriptAgreesWithFake(es: seq<Event>, from: real)
    requires Monotone(es, from)
    ensures RedisAnswers(map[], es) == FakeAnswers(map[], es)
  {
    StoresAgree(map[], map[], es, from);
  }

  // ---- What one check leaves behind ----------------------------------------------------------------

  /** A live key, already counting, that expires later than a new window would. */
  predicate Overlong(k: Option<RedisKey>, seconds: int, now: real) {
    var a := Alive(k, now);
    a.Some? && a.value.count != 0 && a.value.expireAt.Some? && a.value.expireAt.value > now + seconds as real
  }

  /** From any start state, a key that lost its expiry included, one check leaves the key with an
      expiry ahead. It lies within the window exactly when the key was not already set to live
      longer, as it is after the window of a rule has been shortened. */
  lemma CheckBoundsExpiryIff(k: Option<RedisKey>, seconds: int, now: real)
    requires seconds > 0
    ensures var r := Script(k, seconds, now).key;
            && r.Some? && r.value.expireAt.Some? && now < r.value.expireAt.value
            && (r.value.expireAt.value <= now + seconds as real <==> !Overlong(k, seconds, now))
  {
  }

  /** The wait the in-memory backend announces is at least one second, and after it the window is over:
      the next check starts at 1. It is at most the window exactly when no live window expires later,
      as one does after the window of a rule has been shortened. */
  lemma ResetEndsWindow(w: Option<Window>, limit: int, seconds: int, now: real, later: real)
    requires seconds >= 1 && later >= now + ResultOf(Hit(w, now, seconds), limit, now).resetAfter as real
    ensures 1 <= ResultOf(Hit(w, now, seconds), limit, now).resetAfter
    ensures ResultOf(Hit(w, now, seconds), limit, now).resetAfter <= seconds
            <==> Over(w, now) || w.value.expiresAt <= now + seconds as real
    ensures Over(Some(Hit(w, now, seconds)), later) && Hit(Some(Hit(w, now, seconds)), later, seconds).count == 1
  {
  }
}
