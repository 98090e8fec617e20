/** The rate limiter over a fixed-window backend that may fail, and how many requests it lets
    through. */
module RateLimiting {
  import opened Wrappers
  import opened RateLimitBackend
  import Keys = RateLimitKeys

  datatype Rule = Rule(name: string, limit: int, seconds: int, scope: Keys.Scope, failOpen: Option<bool>)

  /** How the backend behaves on one call: it works, it is lost before counting, or its answer is
      lost after counting. */
  datatype Fault = Working | LostBefore | LostAfter

  datatype Decision = Decision(allowed: bool, limit: int, remaining: int, resetAfter: int)

  /** RateLimitExceededError carries what the caller may retry on. */
  datatype Exceeded = Exceeded(retryAfter: int, limit: int, remaining: int)

  datatype Verdict = Decided(d: Decision) | Raised(e: Exceeded)

  function FailsOpen(rule: Rule, defaultFailOpen: bool): bool {
    if rule.failOpen.Some? then rule.failOpen.value else defaultFailOpen
  }

  /** What check answers, given the window the request was counted in. */
  function Judge(rule: Rule, defaultFailOpen: bool, fault: Fault, w: Window, now: real): Verdict {
    if !fault.Working? then
      if FailsOpen(rule, defaultFailOpen) then Decided(Decision(true, rule.limit, rule.limit, 0))
      else Raised(Exceeded(rule.seconds, rule.limit, 0))
    else
      var r := ResultOf(w, rule.limit, now);
      Decided(Decision(r.count <= rule.limit, rule.limit, r.remaining, r.resetAfter))
  }

  predicate LetsThrough(v: Verdict) { v.Decided? && v.d.allowed }

  class RateLimiter {
    const backend: FakeRateLimiterBackend
    const defaultFailOpen: bool

    constructor (backend: FakeRateLimiterBackend, defaultFailOpen: bool)
      ensures this.backend == backend && this.defaultFailOpen == defaultFailOpen
    {
      this.backend, this.defaultFailOpen := backend, defaultFailOpen;
    }

    method Check(rule: Rule, identifier: string, now: real, fault: Fault) returns (v: Verdict)
      requires backend.Valid()
      modifies backend, backend.Repr
      ensures backend.Valid() && fresh(backend.Repr - old(backend.Repr))
      ensures var c := Call(rule, identifier, Attempt(now, fault));
              && backend.Contents() == AfterCall(old(backend.Contents()), c)
              && v == VerdictOf(Lookup(old(backend.Contents()), KeyOf(c)), defaultFailOpen, c)
    {
      var key := Keys.Build(rule.name, rule.scope, identifier);
      var result: BackendResult;
      if !fault.LostBefore? {
        result := backend.Check(key, rule.limit, rule.seconds, now);
      }
      if !fault.Working? {
        var failOpen := if rule.failOpen.Some? then rule.failOpen.value else defaultFailOpen;
        if failOpen {
          return Decided(Decision(true, rule.limit, rule.limit, 0));
        }
        return Raised(Exceeded(rule.seconds, rule.limit, 0));
      }
      return Decided(Decision(result.count <= rule.limit, rule.limit, result.remaining, result.resetAfter));
    }

    /** A returned decision is always an allowance; every refusal is raised. */
    method Enforce(rule: Rule, identifier: string, now: real, fault: Fault) returns (v: Verdict)
      requires backend.Valid()
      modifies backend, backend.Repr
      ensures backend.Valid() && fresh(backend.Repr - old(backend.Repr))
      ensures var c := Call(rule, identifier, Attempt(now, fault));
              var j := VerdictOf(Lookup(old(backend.Contents()), KeyOf(c)), defaultFailOpen, c);
              && backend.Contents() == AfterCall(old(backend.Contents()), c)
              && (v.Decided? <==> LetsThrough(j)) && (v.Decided? ==> v == j)
              && (v.Raised? ==> v.e == if fault.Working? then Exceeded(j.d.resetAfter, rule.limit, 0)
                                          else Exceeded(rule.seconds, rule.limit, 0))
    {
      v := Check(rule, identifier, now, fault);
      if v.Decided? && !v.d.allowed {
        v := Raised(Exceeded(v.d.resetAfter, v.d.limit, v.d.remaining));
      }
    }
  }

  // ---- One key under one rule ---------------------------------------------------------------------

  datatype Attempt = Attempt(at: real, fault: Fault)

  function After(w: Option<Window>, a: Attempt, seconds: int): Option<Window> {
    if a.fault.LostBefore? then w else Some(Hit(w, a.at, seconds))
  }

  /** Whether the limiter lets an attempt through. */
  predicate Through(rule: Rule, failOpen: bool, w: Option<Window>, a: Attempt) {
    if a.fault.Working? then Hit(w, a.at, rule.seconds).count <= rule.limit else failOpen
  }

  lemma ThroughIsVerdict(rule: Rule, defaultFailOpen: bool, w: Option<Window>, a: Attempt)
    ensures Through(rule, FailsOpen(rule, defaultFailOpen), w, a)
            <==> LetsThrough(Judge(rule, defaultFailOpen, a.fault, Hit(w, a.at, rule.seconds), a.at))
  {
  }

  /** While the backend fails, a call is let through exactly when its rule says so, or says nothing and the
      default does; otherwise it is refused, with the window of the rule as the time to wait. */
  lemma FaultIsPassedIff(rule: Rule, defaultFailOpen: bool, fault: Fault, w: Window, now: real)
    requires fault != Working
    ensures var v := Judge(rule, defaultFailOpen, fault, w, now);
            && (LetsThrough(v) <==> rule.failOpen == Some(true) || (rule.failOpen == None && defaultFailOpen))
            && (LetsThrough(v) ==> v == Decided(Decision(true, rule.limit, rule.limit, 0)))
            && (!LetsThrough(v) ==> v == Raised(Exceeded(rule.seconds, rule.limit, 0)))
  {
  }

  /** While it works, the rule's limit decides; what is left is the limit less the count, never negative; and
      the wait is the least number of whole seconds, at least one, by which the window has expired. */
  lemma WorkingVerdict(rule: Rule, defaultFailOpen: bool, w: Window, now: real)
    ensures var v := Judge(rule, defaultFailOpen, Working, w, now);
            && v.Decided? && v.d.limit == rule.limit
            && (v.d.allowed <==> w.count <= rule.limit)
            && (w.count <= rule.limit ==> v.d.remaining == rule.limit - w.count)
            && (w.count >= rule.limit ==> v.d.remaining == 0)
            && v.d.resetAfter >= 1 && now + v.d.resetAfter as real >= w.expiresAt
            && (v.d.resetAfter > 1 ==> now + (v.d.resetAfter - 1) as real < w.expiresAt)
  {
  }

  predicate Within(a: Attempt, lo: real, hi: real) { lo <= a.at < hi }

  /** How many attempts of a run made in [lo, hi) are let through. */
  function Passed(rule: Rule, failOpen: bool, w: Option<Window>, attempts: seq<Attempt>, lo: real, hi: real): nat
    decreases |attempts|
  {
    if attempts == [] then 0
    else
      var a := attempts[0];
      (if Within(a, lo, hi) && Through(rule, failOpen, w, a) then 1 else 0)
      + Passed(rule, failOpen, After(w, a, rule.seconds), attempts[1..], lo, hi)
  }

  /** How many of them meet a failing backend. */
  function Faults(attempts: seq<Attempt>, lo: real, hi: real): nat
    decreases |attempts|
  {
    if attempts == [] then 0
    else (if Within(attempts[0], lo, hi) && !attempts[0].fault.Working? then 1 else 0) + Faults(attempts[1..], lo, hi)
  }

  predicate Ordered(attempts: seq<Attempt>, from: real)
    decreases |attempts|
  {
    attempts == [] || (from <= attempts[0].at && Ordered(attempts[1..], attempts[0].at))
  }

  predicate Counting(w: Option<Window>) { w.Some? ==> w.value.count >= 1 }

  /** What is left of the limit in the window at hand. */
  function Left(rule: Rule, w: Option<Window>): nat { if w.None? then 0 else Max(0, rule.limit - w.value.count) }

  function Extra(failOpen: bool, attempts: seq<Attempt>, lo: real, hi: real): nat {
    if failOpen then Faults(attempts, lo, hi) else 0
  }

  lemma OneMore(limit: nat, n: nat)
    requires n >= 1
    ensures limit * n == limit * (n - 1) + limit
  {
  }

  /** From a state reached inside the interval: what is left of the window at hand plus a full limit
      for each of the `n` windows that can still begin. */
  lemma {:induction false} PassedFromHere(rule: Rule, failOpen: bool, w: Option<Window>, attempts: seq<Attempt>,
                                         lo: real, hi: real, from: real, n: nat)
    requires rule.seconds > 0 && lo <= from && Ordered(attempts, from)
    requires hi - (if Over(w, from) then from else w.value.expiresAt) <= (n * rule.seconds) as real
    ensures Passed(rule, failOpen, w, attempts, lo, hi)
            <= Max(0, rule.limit) * n + Left(rule, w) + Extra(failOpen, attempts, lo, hi)
    decreases |attempts|
  {
    if attempts != [] {
      var a := attempts[0];
      var w' := After(w, a, rule.seconds);
      if a.at >= hi {
        PassedLater(rule, failOpen, w, attempts, lo, hi);
      } else if a.fault.LostBefore? || !Over(w, a.at) {
        PassedFromHere(rule, failOpen, w', attempts[1..], lo, hi, a.at, n);
      } else {
        assert (0 * rule.seconds) as real == 0.0;
        assert n != 0;
        assert ((n - 1) * rule.seconds) as real == (n * rule.seconds) as real - rule.seconds as real;
        OneMore(Max(0, rule.limit), n);
        PassedFromHere(rule, failOpen, w', attempts[1..], lo, hi, a.at, n - 1);
      }
    }
  }

  lemma {:induction false} PassedLater(rule: Rule, failOpen: bool, w: Option<Window>, attempts: seq<Attempt>,
                                       lo: real, hi: real)
    requires attempts != [] && hi <= attempts[0].at && Ordered(attempts, attempts[0].at)
    ensures Passed(rule, failOpen, w, attempts, lo, hi) == 0
    decreases |attempts|
  {
    if |attempts| > 1 {
      PassedLater(rule, failOpen, After(w, attempts[0], rule.seconds), attempts[1..], lo, hi);
    }
  }

  /** For one key under a fixed rule and a clock that does not run backwards, with the backend
      failing whenever it likes: an interval covered by `n` windows lets at most limit * (n+1) - 1
      requests through, one limit per window that begins in it and, of the one it cuts into, all but
      the request that opened it. A fail-open rule adds the attempts that met a failing backend;
      a fail-closed one adds none. */
  lemma {:induction false} PassedInInterval(rule: Rule, failOpen: bool, w: Option<Window>, attempts: seq<Attempt>,
                                           from: real, lo: real, hi: real, n: nat)
    requires rule.seconds > 0 && Counting(w) && Ordered(attempts, from) && hi - lo <= (n * rule.seconds) as real
    ensures Passed(rule, failOpen, w, attempts, lo, hi)
            <= Max(0, rule.limit) * n + Max(0, rule.limit - 1) + Extra(failOpen, attempts, lo, hi)
    decreases |attempts|
  {
    if attempts != [] {
      var a := attempts[0];
      if a.at < lo {
        PassedInInterval(rule, failOpen, After(w, a, rule.seconds), attempts[1..], a.at, lo, hi, n);
      } else {
        PassedFromHere(rule, failOpen, w, attempts, lo, hi, a.at, n);
      }
    }
  }

  /** The number of windows that cover a stretch of time. */
  function Covering(time: real, seconds: int): nat
    requires seconds > 0
  {
    Max(0, Ceil(time / seconds as real))
  }

  lemma CoveringCovers(time: real, seconds: int)
    requires seconds > 0
    ensures time <= (Covering(time, seconds) * seconds) as real
  {
    var q := time / seconds as real;
    assert q <= Ceil(q) as real;
    var c := Covering(time, seconds);
    assert q <= c as real;
    assert time == q * seconds as real;
    assert q * seconds as real <= c as real * seconds as real;
    assert c as real * seconds as real == (c * seconds) as real;
  }

  /** The published bound, in closed form: for a working backend, limit * (ceil(T/W) + 1) in an
      interval of length T. */
  lemma AllowedInInterval(rule: Rule, attempts: seq<Attempt>, from: real, lo: real, hi: real)
    requires rule.seconds > 0 && rule.limit >= 0 && Ordered(attempts, from)
    ensures Passed(rule, false, None, attempts, lo, hi) <= rule.limit * (Covering(hi - lo, rule.seconds) + 1)
  {
    var n := Covering(hi - lo, rule.seconds);
    CoveringCovers(hi - lo, rule.seconds);
    PassedInInterval(rule, false, None, attempts, from, lo, hi, n);
    OneMore(rule.limit, n + 1);
  }

  /** Inside one window, from the request that opens it, a fail-closed rule lets at most its limit
      through however the backend fails. */
  lemma AtMostLimitPerWindow(rule: Rule, attempts: seq<Attempt>, w: Option<Window>, start: real)
    requires rule.seconds > 0 && Over(w, start) && Ordered(attempts, start)
    ensures Passed(rule, false, w, attempts, start, start + rule.seconds as real) <= Max(0, rule.limit)
  {
    var hi := start + rule.seconds as real;
    assert (1 * rule.seconds) as real == rule.seconds as real;
    if attempts != [] {
      OverStays(w, start, attempts[0].at);
      PassedFromHere(rule, false, None, attempts, start, hi, start, 1);
      SameIfOver(rule, w, attempts, start, hi, start);
    }
  }

  lemma OverStays(w: Option<Window>, now: real, later: real)
    requires Over(w, now) && now <= later
    ensures Over(w, later)
  {
  }

  /** A window that is over counts for nothing. */
  lemma {:induction false} SameIfOver(rule: Rule, w: Option<Window>, attempts: seq<Attempt>, lo: real, hi: real,
                                      from: real)
    requires Over(w, from) && Ordered(attempts, from)
    ensures Passed(rule, false, w, attempts, lo, hi) == Passed(rule, false, None, attempts, lo, hi)
    decreases |attempts|
  {
    if attempts != [] && attempts[0].fault.LostBefore? {
      SameIfOver(rule, w, attempts[1..], lo, hi, attempts[0].at);
    }
  }

  /** The counts the backend reports. */
  function Counts(w: Option<Window>, attempts: seq<Attempt>, seconds: int): seq<int>
    decreases |attempts|
  {
    if attempts == [] then []
    else [Hit(w, attempts[0].at, seconds).count] + Counts(After(w, attempts[0], seconds), attempts[1..], seconds)
  }

  /** Working checks inside a window that has counted `w.count` so far: they are counted on from
      there, and those up to the limit are let through. */
  lemma {:induction false} WindowCountsUp(rule: Rule, w: Window, attempts: seq<Attempt>, lo: real, hi: real)
    requires w.count >= 0 && (forall a :: a in attempts ==> a.fault.Working? && lo <= a.at < w.expiresAt && a.at < hi)
    ensures Passed(rule, false, Some(w), attempts, lo, hi) == Max(0, Least(rule.limit, w.count + |attempts|) - w.count)
    ensures Counts(Some(w), attempts, rule.seconds) == seq(|attempts|, i => w.count + i + 1)
    ensures WindowAfter(Some(w), attempts, rule.seconds) == Some(w.(count := w.count + |attempts|))
    decreases |attempts|
  {
    if attempts != [] {
      assert attempts[0] in attempts && forall a :: a in attempts[1..] ==> a in attempts;
      WindowCountsUp(rule, w.(count := w.count + 1), attempts[1..], lo, hi);
    }
  }

  function Least(a: int, b: int): int { if a <= b then a else b }

  function WindowAfter(w: Option<Window>, attempts: seq<Attempt>, seconds: int): Option<Window>
    decreases |attempts|
  {
    if attempts == [] then w else WindowAfter(After(w, attempts[0], seconds), attempts[1..], seconds)
  }

  /** With a working backend, the n checks of a whole window, from the one that opens it, are counted
      1 to n and exactly min(n, limit) of them are let through. */
  lemma WindowAllowsMinOfCountAndLimit(rule: Rule, attempts: seq<Attempt>, w: Option<Window>, start: real, lo: real,
                                       hi: real)
    requires rule.seconds > 0 && attempts != [] && attempts[0].at == start && Over(w, start) && lo <= start
    requires forall a :: a in attempts ==> a.fault.Working? && start <= a.at < start + rule.seconds as real && a.at < hi
    ensures Counts(w, attempts, rule.seconds) == seq(|attempts|, i => i + 1)
    ensures Passed(rule, false, w, attempts, lo, hi) == Max(0, Least(rule.limit, |attempts|))
  {
    var first := Window(start + rule.seconds as real, 1);
    assert attempts[0] in attempts && forall a :: a in attempts[1..] ==> a in attempts;
    assert After(w, attempts[0], rule.seconds) == Some(first);
    WindowCountsUp(rule, first, attempts[1..], lo, hi);
  }

  /** Under one rule and an orderly clock no window reaches further than the rule says. */
  lemma {:induction false} WindowsStayWithin(attempts: seq<Attempt>, w: Option<Window>, seconds: int, from: real,
                                             now: real)
    requires Ordered(attempts, from) && (forall a :: a in attempts ==> a.at <= now) && from <= now
    requires w.Some? ==> w.value.expiresAt <= from + seconds as real
    ensures var v := WindowAfter(w, attempts, seconds); v.Some? ==> v.value.expiresAt <= now + seconds as real
    decreases |attempts|
  {
    if attempts != [] {
      assert attempts[0] in attempts && forall a :: a in attempts[1..] ==> a in attempts;
      WindowsStayWithin(attempts[1..], After(w, attempts[0], seconds), seconds, attempts[0].at, now);
    }
  }

  /** So in every orderly run of one rule, whatever the backend does, the wait it announces lies between
      one second and the window. */
  lemma WaitIsWithinWindow(rule: Rule, attempts: seq<Attempt>, from: real, now: real)
    requires rule.seconds >= 1 && Ordered(attempts, from) && (forall a :: a in attempts ==> a.at <= now) && from <= now
    ensures var w := Hit(WindowAfter(None, attempts, rule.seconds), now, rule.seconds);
            1 <= ResultOf(w, rule.limit, now).resetAfter <= rule.seconds
  {
    WindowsStayWithin(attempts, None, rule.seconds, from, now);
    var v := WindowAfter(None, attempts, rule.seconds);
    ResetEndsWindow(v, rule.limit, rule.seconds, now,
                    now + ResultOf(Hit(v, now, rule.seconds), rule.limit, now).resetAfter as real);
  }

  // ---- The bound is reached ------------------------------------------------------------------------

  /** `m` working attempts at once. */
  function Burst(m: nat, at: real): seq<Attempt> { seq(m, _ => Attempt(at, Working)) }

  lemma {:induction false} PassedSplits(rule: Rule, w: Option<Window>, x: seq<Attempt>, y: seq<Attempt>, lo: real,
                                        hi: real)
    ensures Passed(rule, false, w, x + y, lo, hi)
            == Passed(rule, false, w, x, lo, hi) + Passed(rule, false, WindowAfter(w, x, rule.seconds), y, lo, hi)
    decreases |x|
  {
    if x == [] {
      assert x + y == y;
    } else {
      assert (x + y)[0] == x[0] && (x + y)[1..] == x[1..] + y;
      PassedSplits(rule, After(w, x[0], rule.seconds), x[1..], y, lo, hi);
    }
  }

  lemma {:induction false} BurstIsOrdered(m: nat, at: real, from: real)
    requires from <= at
    ensures Ordered(Burst(m, at), from)
    decreases m
  {
    if m > 0 {
      assert Burst(m, at)[1..] == Burst(m - 1, at);
      BurstIsOrdered(m - 1, at, at);
    }
  }

  lemma {:induction false} OrderedConcat(x: seq<Attempt>, y: seq<Attempt>, from: real, mid: real)
    requires Ordered(x, from) && from <= mid && (forall a :: a in x ==> a.at <= mid) && Ordered(y, mid)
    ensures Ordered(x + y, from)
    decreases |x|
  {
    if x == [] {
      assert x + y == y;
    } else {
      assert x[0] in x && (x + y)[0] == x[0] && (x + y)[1..] == x[1..] + y;
      assert forall a :: a in x[1..] ==> a in x;
      OrderedConcat(x[1..], y, x[0].at, mid);
    }
  }

  /** When window number `k` begins. */
  function Turn(seconds: int, k: nat): real { (k * seconds) as real }

  /** A full limit at each turn from the `k`th to the `n`th. */
  function Turns(limit: nat, seconds: int, k: nat, n: nat): seq<Attempt>
    decreases n + 1 - k
  {
    if n < k then [] else Burst(limit, Turn(seconds, k)) + Turns(limit, seconds, k + 1, n)
  }

  /** One request at 0, limit - 1 half a window later, and a full limit at each of the next `n` turns. */
  function WorstCase(limit: nat, seconds: int, n: nat): seq<Attempt>
    requires limit >= 1
  {
    [Attempt(0.0, Working)] + (Burst(limit - 1, seconds as real / 2.0) + Turns(limit, seconds, 1, n))
  }

  lemma NextTurn(seconds: int, k: nat)
    ensures Turn(seconds, k + 1) == Turn(seconds, k) + seconds as real
  {
    assert (k + 1) * seconds == k * seconds + seconds;
  }

  lemma {:induction false} TurnsAreOrdered(limit: nat, seconds: int, k: nat, n: nat)
    requires seconds > 0
    ensures Ordered(Turns(limit, seconds, k, n), Turn(seconds, k))
    decreases n + 1 - k
  {
    if k <= n {
      var at := Turn(seconds, k);
      NextTurn(seconds, k);
      BurstIsOrdered(limit, at, at);
      TurnsAreOrdered(limit, seconds, k + 1, n);
      OrderedConcat(Burst(limit, at), Turns(limit, seconds, k + 1, n), at, Turn(seconds, k + 1));
    }
  }

  lemma {:induction false} TurnsPass(rule: Rule, w: Option<Window>, k: nat, n: nat, lo: real, hi: real)
    requires rule.seconds > 0 && rule.limit >= 1 && k <= n + 1 && Over(w, Turn(rule.seconds, k))
    requires lo <= Turn(rule.seconds, k) && Turn(rule.seconds, n) < hi
    ensures Passed(rule, false, w, Turns(rule.limit, rule.seconds, k, n), lo, hi) == rule.limit * (n + 1 - k)
    decreases n + 1 - k
  {
    if k <= n {
      var at, burst := Turn(rule.seconds, k), Burst(rule.limit, Turn(rule.seconds, k));
      NextTurn(rule.seconds, k);
      TurnsRise(rule.seconds, k, n);
      WindowAllowsMinOfCountAndLimit(rule, burst, w, at, lo, hi);
      BurstOpensWindow(rule, w, rule.limit, at);
      PassedSplits(rule, w, burst, Turns(rule.limit, rule.seconds, k + 1, n), lo, hi);
      TurnsPass(rule, WindowAfter(w, burst, rule.seconds), k + 1, n, lo, hi);
      OneMore(rule.limit, n + 1 - k);
    }
  }

  lemma {:induction false} TurnsRise(seconds: int, k: nat, n: nat)
    requires seconds > 0 && k <= n
    ensures Turn(seconds, k) <= Turn(seconds, n)
    decreases n - k
  {
    if k < n {
      NextTurn(seconds, k);
      TurnsRise(seconds, k + 1, n);
    }
  }

  lemma BurstOpensWindow(rule: Rule, w: Option<Window>, m: nat, at: real)
    requires rule.seconds > 0 && m >= 1 && Over(w, at)
    ensures WindowAfter(w, Burst(m, at), rule.seconds) == Some(Window(at + rule.seconds as real, m))
  {
    var first := Window(at + rule.seconds as real, 1);
    assert Burst(m, at)[1..] == Burst(m - 1, at) && Burst(m, at)[0] == Attempt(at, Working);
    assert After(w, Burst(m, at)[0], rule.seconds) == Some(first);
    WindowCountsUp(rule, first, Burst(m - 1, at), at, at + 1.0);
  }

  /** For every limit, window and number of windows some run lets limit * (n + 1) - 1 requests through in
      an interval of `n` windows' length, so the bound above cannot be lowered. */
  lemma BoundIsReached(rule: Rule, n: nat)
    requires rule.seconds > 0 && rule.limit >= 1 && n >= 1
    ensures var half := rule.seconds as real / 2.0;
            && Ordered(WorstCase(rule.limit, rule.seconds, n), 0.0)
            && Passed(rule, false, None, WorstCase(rule.limit, rule.seconds, n), half, half + Turn(rule.seconds, n))
               == rule.limit * (n + 1) - 1
  {
    var W := rule.seconds as real;
    var lo, hi := W / 2.0, W / 2.0 + Turn(rule.seconds, n);
    var x, y := Burst(rule.limit - 1, W / 2.0), Turns(rule.limit, rule.seconds, 1, n);
    assert Turn(rule.seconds, 1) == W;
    TurnsRise(rule.seconds, 1, n);
    BurstIsOrdered(rule.limit - 1, W / 2.0, 0.0);
    TurnsAreOrdered(rule.limit, rule.seconds, 1, n);
    OrderedConcat(x, y, 0.0, W);
    var all := WorstCase(rule.limit, rule.seconds, n);
    assert all[0] == Attempt(0.0, Working) && all[1..] == x + y;
    var first := Window(W, 1);
    assert After(None, all[0], rule.seconds) == Some(first);
    WindowCountsUp(rule, first, x, lo, hi);
    PassedSplits(rule, Some(first), x, y, lo, hi);
    TurnsPass(rule, Some(first.(count := rule.limit)), 1, n, lo, hi);
    OneMore(rule.limit, n + 1);
  }

  // ---- Keys do not disturb each other -----------------------------------------------------------------

  datatype Call = Call(rule: Rule, identifier: string, a: Attempt)

  function KeyOf(c: Call): string { Keys.Build(c.rule.name, c.rule.scope, c.identifier) }

  function AfterCall(ws: map<string, Window>, c: Call): map<string, Window> {
    if c.a.fault.LostBefore? then ws else ws[KeyOf(c) := Hit(Lookup(ws, KeyOf(c)), c.a.at, c.rule.seconds)]
  }

  function VerdictOf(w: Option<Window>, defaultFailOpen: bool, c: Call): Verdict {
    Judge(c.rule, defaultFailOpen, c.a.fault, Hit(w, c.a.at, c.rule.seconds), c.a.at)
  }

  /** The verdicts on the calls for `key` when calls for all keys run together. */
  function Together(ws: map<string, Window>, defaultFailOpen: bool, cs: seq<Call>, key: string): seq<Verdict>
    decreases |cs|
  {
    if cs == [] then []
    else
      (if KeyOf(cs[0]) == key then [VerdictOf(Lookup(ws, key), defaultFailOpen, cs[0])] else [])
      + Together(AfterCall(ws, cs[0]), defaultFailOpen, cs[1..], key)
  }

  function OnlyFor(cs: seq<Call>, key: string): seq<Call>
    decreases |cs|
  {
    if cs == [] then [] else (if KeyOf(cs[0]) == key then [cs[0]] else []) + OnlyFor(cs[1..], key)
  }

  /** The verdicts when one counter serves these calls alone. */
  function Alone(w: Option<Window>, defaultFailOpen: bool, cs: seq<Call>): (vs: seq<Verdict>)
    ensures |vs| == |cs|
    decreases |cs|
  {
    if cs == [] then []
    else [VerdictOf(w, defaultFailOpen, cs[0])] + Alone(After(w, cs[0].a, cs[0].rule.seconds), defaultFailOpen, cs[1..])
  }

  /** Whatever else is checked in between, the verdicts on one key are those of a counter of its own. */
  lemma {:induction false} KeysAreIndependent(ws: map<string, Window>, defaultFailOpen: bool, cs: seq<Call>,
                                              key: string)
    ensures Together(ws, defaultFailOpen, cs, key) == Alone(Lookup(ws, key), defaultFailOpen, OnlyFor(cs, key))
    decreases |cs|
  {
    if cs != [] {
      KeysAreIndependent(AfterCall(ws, cs[0]), defaultFailOpen, cs[1..], key);
      var c := cs[0];
      if KeyOf(c) == key {
        assert OnlyFor(cs, key)[0] == c && OnlyFor(cs, key)[1..] == OnlyFor(cs[1..], key);
        assert Lookup(AfterCall(ws, c), key) == After(Lookup(ws, key), c.a, c.rule.seconds);
      } else {
        assert Lookup(AfterCall(ws, c), key) == Lookup(ws, key);
        assert OnlyFor(cs, key) == OnlyFor(cs[1..], key);
      }
    }
  }

  // ---- The bound, on what the limiter says -----------------------------------------------------------------

  /** How many calls made in [lo, hi) were given a verdict that lets them through. */
  function LetThrough(cs: seq<Call>, vs: seq<Verdict>, lo: real, hi: real): nat
    requires |vs| == |cs|
    decreases |cs|
  {
    if cs == [] then 0
    else (if Within(cs[0].a, lo, hi) && LetsThrough(vs[0]) then 1 else 0) + LetThrough(cs[1..], vs[1..], lo, hi)
  }

  function AttemptsOf(cs: seq<Call>): seq<Attempt>
    decreases |cs|
  {
    if cs == [] then [] else [cs[0].a] + AttemptsOf(cs[1..])
  }

  predicate OneRule(cs: seq<Call>, rule: Rule) { forall c :: c in cs ==> c.rule == rule }

  lemma {:induction false} VerdictsArePassed(rule: Rule, defaultFailOpen: bool, w: Option<Window>, cs: seq<Call>,
                                             lo: real, hi: real)
    requires OneRule(cs, rule)
    ensures LetThrough(cs, Alone(w, defaultFailOpen, cs), lo, hi)
            == Passed(rule, FailsOpen(rule, defaultFailOpen), w, AttemptsOf(cs), lo, hi)
    decreases |cs|
  {
    if cs != [] {
      assert cs[0] in cs && forall c :: c in cs[1..] ==> c in cs;
      ThroughIsVerdict(rule, defaultFailOpen, w, cs[0].a);
      VerdictsArePassed(rule, defaultFailOpen, After(w, cs[0].a, rule.seconds), cs[1..], lo, hi);
      assert AttemptsOf(cs)[1..] == AttemptsOf(cs[1..]);
      assert Alone(w, defaultFailOpen, cs)[1..] == Alone(After(w, cs[0].a, rule.seconds), defaultFailOpen, cs[1..]);
    }
  }

  /** The whole limiter: among any calls, for any rules and identifiers and with the backend failing as
      it likes, those whose key is `key` and whose rule is `rule` are let through at most
      limit * (n + 1) - 1 times in an interval covered by `n` windows; a fail-open rule adds the calls
      that met a failing backend. */
  lemma LimiterBound(ws: map<string, Window>, defaultFailOpen: bool, cs: seq<Call>, key: string, rule: Rule,
                     from: real, lo: real, hi: real, n: nat)
    requires OneRule(OnlyFor(cs, key), rule) && rule.seconds > 0 && Counting(Lookup(ws, key))
    requires Ordered(AttemptsOf(OnlyFor(cs, key)), from) && hi - lo <= (n * rule.seconds) as real
    ensures |Together(ws, defaultFailOpen, cs, key)| == |OnlyFor(cs, key)|
    ensures LetThrough(OnlyFor(cs, key), Together(ws, defaultFailOpen, cs, key), lo, hi)
            <= Max(0, rule.limit) * n + Max(0, rule.limit - 1)
               + Extra(FailsOpen(rule, defaultFailOpen), AttemptsOf(OnlyFor(cs, key)), lo, hi)
  {
    var own := OnlyFor(cs, key);
    KeysAreIndependent(ws, defaultFailOpen, cs, key);
    VerdictsArePassed(rule, defaultFailOpen, Lookup(ws, key), own, lo, hi);
    PassedInInterval(rule, FailsOpen(rule, defaultFailOpen), Lookup(ws, key), AttemptsOf(own), from, lo, hi, n);
  }

  /** A rule stored as fail-closed is bounded without any allowance for faults, whatever the default. */
  lemma FailClosedBound(ws: map<string, Window>, defaultFailOpen: bool, cs: seq<Call>, key: string, rule: Rule,
                        from: real, lo: real, hi: real, n: nat)
    requires OneRule(OnlyFor(cs, key), rule) && rule.failOpen == Some(false)
    requires rule.seconds > 0 && Counting(Lookup(ws, key))
    requires Ordered(AttemptsOf(OnlyFor(cs, key)), from) && hi - lo <= (n * rule.seconds) as real
    ensures |Together(ws, defaultFailOpen, cs, key)| == |OnlyFor(cs, key)|
    ensures LetThrough(OnlyFor(cs, key), Together(ws, defaultFailOpen, cs, key), lo, hi)
            <= Max(0, rule.limit) * n + Max(0, rule.limit - 1)
  {
    FaultIsPassedIff(rule, defaultFailOpen, LostBefore, Window(0.0, 0), 0.0);
    LimiterBound(ws, defaultFailOpen, cs, key, rule, from, lo, hi, n);
  }

  /** And in one window, from the call that opens it, by its limit. */
  lemma FailClosedWindow(ws: map<string, Window>, defaultFailOpen: bool, cs: seq<Call>, key: string, rule: Rule,
                         start: real)
    requires OneRule(OnlyFor(cs, key), rule) && rule.failOpen == Some(false) && rule.seconds > 0
    requires Over(Lookup(ws, key), start) && Ordered(AttemptsOf(OnlyFor(cs, key)), start)
    ensures |Together(ws, defaultFailOpen, cs, key)| == |OnlyFor(cs, key)|
    ensures LetThrough(OnlyFor(cs, key), Together(ws, defaultFailOpen, cs, key), start, start + rule.seconds as real)
            <= Max(0, rule.limit)
  {
    var own := OnlyFor(cs, key);
    FaultIsPassedIff(rule, defaultFailOpen, LostBefore, Window(0.0, 0), 0.0);
    KeysAreIndependent(ws, defaultFailOpen, cs, key);
    VerdictsArePassed(rule, defaultFailOpen, Lookup(ws, key), own, start, start + rule.seconds as real);
    AtMostLimitPerWindow(rule, AttemptsOf(own), Lookup(ws, key), start);
  }

  /** What a caller is told to wait is enough: in an orderly run of one rule the wait is at most its window,
      and once it has passed, a call that meets a working backend is let through. */
  lemma RetryAfterIsEnough(rule: Rule, defaultFailOpen: bool, identifier: string, attempts: seq<Attempt>,
                           from: real, now: real, later: real)
    requires rule.seconds >= 1 && rule.limit >= 1
    requires Ordered(attempts, from) && (forall a :: a in attempts ==> a.at <= now) && from <= now
    ensures var w := WindowAfter(None, attempts, rule.seconds);
            var v := VerdictOf(w, defaultFailOpen, Call(rule, identifier, Attempt(now, Working)));
            var again := Call(rule, identifier, Attempt(later, Working));
            && 1 <= v.d.resetAfter <= rule.seconds
            && (later >= now + v.d.resetAfter as real ==>
                 LetsThrough(VerdictOf(After(w, Attempt(now, Working), rule.seconds), defaultFailOpen, again)))
  {
    var w := Hit(WindowAfter(None, attempts, rule.seconds), now, rule.seconds);
    WaitIsWithinWindow(rule, attempts, from, now);
    WorkingVerdict(rule, defaultFailOpen, w, now);
    if later >= w.expiresAt {
      WorkingVerdict(rule, defaultFailOpen, Hit(Some(w), later, rule.seconds), later);
    }
  }
}
