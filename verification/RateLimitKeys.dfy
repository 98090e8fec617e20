/** Keys of the rate limiter: `app:{namespace}:{parts...}`, with the separator replaced inside
    the parts. */
module RateLimitKeys {
  import opened Text

  const KEY_PREFIX: string := "app"
  const SEPARATOR: char := ':'
  const NAMESPACE_RATE_LIMIT: string := "rl"

  datatype Scope = Ip | User | Tenant | Route | Action | Resource

  function ScopeValue(s: Scope): (r: string)
    ensures SEPARATOR !in r
  {
    match s
    case Ip => "ip"
    case User => "user"
    case Tenant => "tenant"
    case Route => "route"
    case Action => "action"
    case Resource => "resource"
  }

  function Clean(part: string): (r: string)
    ensures SEPARATOR !in r
    ensures SEPARATOR !in part ==> r == part
  {
    Replace(part, SEPARATOR, '_')
  }

  function CleanAll(parts: seq<string>): (r: seq<string>)
    ensures |r| == |parts| && forall i :: 0 <= i < |r| ==> r[i] == Clean(parts[i])
  {
    seq(|parts|, i requires 0 <= i < |parts| => Clean(parts[i]))
  }

  function CacheKey(namespace: string, parts: seq<string>): string {
    Join([KEY_PREFIX, namespace] + CleanAll(parts), SEPARATOR)
  }

  function Build(ruleName: string, scope: Scope, identifier: string): string {
    CacheKey(NAMESPACE_RATE_LIMIT, [ruleName, ScopeValue(scope), identifier])
  }

  /** Splitting a key on the separator recovers its cleaned parts exactly when the namespace has no
      separator in it; the parts may be any text. */
  lemma SplitRecoversPartsIff(namespace: string, parts: seq<string>)
    ensures Split(CacheKey(namespace, parts), SEPARATOR) == [KEY_PREFIX, namespace] + CleanAll(parts)
            <==> SEPARATOR !in namespace
  {
    var all := [KEY_PREFIX, namespace] + CleanAll(parts);
    if SEPARATOR !in namespace {
      SplitJoin(all, SEPARATOR);
    } else {
      assert all[1] == namespace;
      var parts' := Split(Join(all, SEPARATOR), SEPARATOR);
      assert forall i :: 0 <= i < |parts'| ==> SEPARATOR !in parts'[i];
    }
  }

  /** Keys of separator-free namespaces are equal exactly when namespace and cleaned parts are. */
  lemma KeysEqualIff(n1: string, p1: seq<string>, n2: string, p2: seq<string>)
    requires SEPARATOR !in n1 && SEPARATOR !in n2
    ensures CacheKey(n1, p1) == CacheKey(n2, p2) <==> n1 == n2 && CleanAll(p1) == CleanAll(p2)
  {
    SplitRecoversPartsIff(n1, p1);
    SplitRecoversPartsIff(n2, p2);
    var a1, a2 := [KEY_PREFIX, n1] + CleanAll(p1), [KEY_PREFIX, n2] + CleanAll(p2);
    if CacheKey(n1, p1) == CacheKey(n2, p2) {
      assert a1[1] == a2[1] && a1[2..] == CleanAll(p1) && a2[2..] == CleanAll(p2);
    }
  }

  /** Two rule buckets share a counter exactly when they agree on cleaned rule name, scope and
      cleaned identifier. Names and identifiers that differ only in a separator against an
      underscore do share one. */
  lemma BucketsEqualIff(r1: string, s1: Scope, i1: string, r2: string, s2: Scope, i2: string)
    ensures Build(r1, s1, i1) == Build(r2, s2, i2) <==> Clean(r1) == Clean(r2) && s1 == s2 && Clean(i1) == Clean(i2)
  {
    var p1, p2 := [r1, ScopeValue(s1), i1], [r2, ScopeValue(s2), i2];
    KeysEqualIff(NAMESPACE_RATE_LIMIT, p1, NAMESPACE_RATE_LIMIT, p2);
    assert CleanAll(p1) == [Clean(r1), ScopeValue(s1), Clean(i1)];
    assert CleanAll(p2) == [Clean(r2), ScopeValue(s2), Clean(i2)];
    if ScopeValue(s1) == ScopeValue(s2) {
      ScopeValuesDiffer(s1, s2);
    }
  }

  lemma ScopeValuesDiffer(s1: Scope, s2: Scope)
    requires ScopeValue(s1) == ScopeValue(s2)
    ensures s1 == s2
  {
    assert |"ip"| == 2 && |"user"| == 4 && |"tenant"| == 6 && |"route"| == 5 && |"action"| == 6 && |"resource"| == 8;
    assert "tenant"[0] == 't' && "action"[0] == 'a';
  }

  /** How a key reads, for a rule name and an identifier without separators. */
  lemma KeyReads(r: string, i: string)
    requires SEPARATOR !in r && SEPARATOR !in i
    ensures Build(r, Ip, i) == "app:rl:" + r + ":ip:" + i && Build(r, User, i) == "app:rl:" + r + ":user:" + i
    ensures Build(r, Tenant, i) == "app:rl:" + r + ":tenant:" + i && Build(r, Route, i) == "app:rl:" + r + ":route:" + i
    ensures Build(r, Action, i) == "app:rl:" + r + ":action:" + i
    ensures Build(r, Resource, i) == "app:rl:" + r + ":resource:" + i
  {
    KeyOfParts(r, Ip, i);
    KeyOfParts(r, User, i);
    KeyOfParts(r, Tenant, i);
    KeyOfParts(r, Route, i);
    KeyOfParts(r, Action, i);
    KeyOfParts(r, Resource, i);
  }

  lemma KeyOfParts(r: string, s: Scope, i: string)
    requires SEPARATOR !in r && SEPARATOR !in i
    ensures Build(r, s, i) == "app:rl:" + r + ":" + ScopeValue(s) + ":" + i
  {
    var v := ScopeValue(s);
    assert CleanAll([r, v, i]) == [r, v, i];
    var all := ["app", "rl", r, v, i];
    assert [KEY_PREFIX, NAMESPACE_RATE_LIMIT] + CleanAll([r, v, i]) == all;
    assert all[1..] == ["rl", r, v, i] && all[1..][1..] == [r, v, i] && [r, v, i][1..] == [v, i] && [v, i][1..] == [i];
    assert Join([v, i], ':') == v + ":" + i;
    assert Join([r, v, i], ':') == r + ":" + (v + ":" + i);
    assert Join(["rl", r, v, i], ':') == "rl" + ":" + (r + ":" + (v + ":" + i));
    assert Build(r, s, i) == "app" + ":" + ("rl" + ":" + (r + ":" + (v + ":" + i)));
  }

  /** The collision the cleaning allows, on the smallest input. */
  lemma ColonAndUnderscoreCollide()
    ensures Build("r", User, "a:b") == Build("r", User, "a_b") && "a:b" != "a_b"
  {
    assert Clean("a:b") == Clean("a_b");
    BucketsEqualIff("r", User, "a:b", "r", User, "a_b");
    assert "a:b"[1] != "a_b"[1];
  }
}
