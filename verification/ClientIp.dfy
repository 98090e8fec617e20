/** The address rate limiting keys on: the socket peer, or behind a trusted proxy the first
    untrusted hop of the forwarded header, walked from the right. Which addresses are trusted and
    which characters are white space are inputs. */
module ClientIp {
  import opened Wrappers
  import opened Text

  datatype Trust = Trust(configured: bool, trusted: string -> bool, isSpace: char -> bool)

  const UNKNOWN: string := "unknown"

  function StripLeft(k: Trust, s: string): string {
    if s != "" && k.isSpace(s[0]) then StripLeft(k, s[1..]) else s
  }

  function StripRight(k: Trust, s: string): string {
    if s != "" && k.isSpace(s[|s| - 1]) then StripRight(k, s[..|s| - 1]) else s
  }

  function Strip(k: Trust, s: string): string { StripRight(k, StripLeft(k, s)) }

  /** The stripped entries that are not empty, in order. */
  function NonEmpty(k: Trust, parts: seq<string>): seq<string> {
    if parts == [] then []
    else
      var init := NonEmpty(k, parts[..|parts| - 1]);
      var hop := Strip(k, parts[|parts| - 1]);
      if hop != "" then init + [hop] else init
  }

  function Hops(k: Trust, header: string): seq<string> { NonEmpty(k, Split(header, ',')) }

  function RightmostUntrusted(k: Trust, hops: seq<string>): Option<string> {
    if hops == [] then None
    else
      var last := hops[|hops| - 1];
      if k.trusted(last) then RightmostUntrusted(k, hops[..|hops| - 1]) else Some(last)
  }

  /** The header is looked at. */
  predicate HeaderCounts(k: Trust, peer: string) { k.configured && k.trusted(peer) }

  function Resolve(k: Trust, peer: Option<string>, header: Option<string>): string {
    if peer.None? then UNKNOWN
    else if !HeaderCounts(k, peer.value) || header.None? || header.value == "" then peer.value
    else
      var hops := Hops(k, header.value);
      var found := RightmostUntrusted(k, hops);
      if found.Some? then found.value else if hops != [] then hops[0] else peer.value
  }

  method ResolveClientIp(k: Trust, peer: Option<string>, header: Option<string>) returns (r: string)
    ensures r == Resolve(k, peer, header)
  {
    if peer.None? {
      return UNKNOWN;
    }
    if !k.configured || !k.trusted(peer.value) || header.None? || header.value == "" {
      return peer.value;
    }
    var parts := Split(header.value, ',');
    var hops: seq<string> := [];
    for i := 0 to |parts|
      invariant hops == NonEmpty(k, parts[..i])
    {
      assert parts[..i+1][..i] == parts[..i];
      var hop := Strip(k, parts[i]);
      if hop != "" {
        hops := hops + [hop];
      }
    }
    assert parts[..|parts|] == parts;
    assert hops[..|hops|] == hops;
    for i := |hops| downto 0
      invariant RightmostUntrusted(k, hops) == RightmostUntrusted(k, hops[..i])
    {
      assert hops[..i+1][..i] == hops[..i];
      if !k.trusted(hops[i]) {
        return hops[i];
      }
    }
    r := if hops != [] then hops[0] else peer.value;
  }

  // ---- When the header counts at all ----------------------------------------------------------------------

  /** Without configured proxies, or from a peer that is none of them, the answer is the peer, whatever the
      header says. */
  lemma UntrustedPeerIsAnswered(k: Trust, peer: string, header: Option<string>)
    requires !k.configured || !k.trusted(peer)
    ensures Resolve(k, Some(peer), header) == peer
  {
  }

  predicate AllTrusted(k: Trust, hops: seq<string>) { forall h :: h in hops ==> k.trusted(h) }

  /** From a trusted peer the answer is the untrusted hop that has only trusted hops to its right; when all
      hops are trusted, the leftmost; without any hop, the peer. */
  lemma TrustedPeerAnswers(k: Trust, peer: string, header: string)
    requires k.configured && k.trusted(peer)
    ensures var hops, r := Hops(k, header), Resolve(k, Some(peer), Some(header));
            && (hops == [] ==> r == peer)
            && (hops != [] && AllTrusted(k, hops) ==> r == hops[0])
            && (forall i :: 0 <= i < |hops| && !k.trusted(hops[i]) && AllTrusted(k, hops[i + 1..]) ==> r == hops[i])
  {
    WalkFindsRightmost(k, Hops(k, header));
    if header == "" {
      assert Split("", ',') == [""] && [""][..0] == [] && Strip(k, "") == "";
      assert NonEmpty(k, [""]) == NonEmpty(k, []);
    }
  }

  /** No peer address, or a trusted peer without a header. */
  lemma NothingForwarded(k: Trust, peer: string, header: Option<string>)
    ensures Resolve(k, None, header) == "unknown"
    ensures Resolve(k, Some(peer), None) == peer && Resolve(k, Some(peer), Some("")) == peer
  {
  }

  // ---- How the header is read ------------------------------------------------------------------------------

  /** Stripping takes white space off both ends and nothing else. */
  lemma {:induction false} StripTrims(k: Trust, s: string) returns (a: string, b: string)
    ensures s == a + Strip(k, s) + b
    ensures (forall c :: c in a + b ==> k.isSpace(c))
    ensures Strip(k, s) != "" ==> !k.isSpace(Strip(k, s)[0]) && !k.isSpace(Strip(k, s)[|Strip(k, s)| - 1])
  {
    a := LeftTrims(k, s);
    var left := StripLeft(k, s);
    b := RightTrims(k, left);
  }

  lemma {:induction false} LeftTrims(k: Trust, s: string) returns (a: string)
    ensures s == a + StripLeft(k, s) && (forall c :: c in a ==> k.isSpace(c))
    ensures StripLeft(k, s) != "" ==> !k.isSpace(StripLeft(k, s)[0])
  {
    a := "";
    if s != "" && k.isSpace(s[0]) {
      var rest := LeftTrims(k, s[1..]);
      a := [s[0]] + rest;
    }
  }

  lemma {:induction false} RightTrims(k: Trust, s: string) returns (b: string)
    ensures s == StripRight(k, s) + b && (forall c :: c in b ==> k.isSpace(c))
    ensures var r := StripRight(k, s); r != "" ==> r[0] == s[0] && !k.isSpace(r[|r| - 1])
    decreases |s|
  {
    b := "";
    if s != "" && k.isSpace(s[|s| - 1]) {
      var rest := RightTrims(k, s[..|s| - 1]);
      b := rest + [s[|s| - 1]];
    }
  }

  /** A header that lists plain addresses, separated by commas, has those hops in that order. */
  lemma {:induction false} HeaderListsHops(k: Trust, addresses: seq<string>)
    requires addresses != [] && forall i :: 0 <= i < |addresses| ==> Plain(k, addresses[i])
    ensures Hops(k, Join(addresses, ',')) == addresses
  {
    SplitJoin(addresses, ',');
    PlainPartsAreKept(k, addresses);
  }

  lemma {:induction false} PlainPartsAreKept(k: Trust, parts: seq<string>)
    requires forall i :: 0 <= i < |parts| ==> Plain(k, parts[i])
    ensures NonEmpty(k, parts) == parts
  {
    if parts != [] {
      PlainPartsAreKept(k, parts[..|parts| - 1]);
    }
  }

  // ---- What the walk finds ---------------------------------------------------------------------------

  /** The walk stops at the untrusted hop with only trusted hops to its right, or finds them all
      trusted. */
  lemma {:induction false} WalkFindsRightmost(k: Trust, hops: seq<string>)
    ensures match RightmostUntrusted(k, hops)
            case Some(h) => exists i :: 0 <= i < |hops| && hops[i] == h && !k.trusted(h)
                                        && forall j :: i < j < |hops| ==> k.trusted(hops[j])
            case None => forall j :: 0 <= j < |hops| ==> k.trusted(hops[j])
    decreases |hops|
  {
    if hops != [] && k.trusted(hops[|hops| - 1]) {
      var init := hops[..|hops| - 1];
      WalkFindsRightmost(k, init);
      if RightmostUntrusted(k, init).Some? {
        var i :| 0 <= i < |init| && init[i] == RightmostUntrusted(k, init).value
                 && forall j :: i < j < |init| ==> k.trusted(init[j]);
        assert forall j :: i < j < |hops| ==> j == |hops| - 1 || hops[j] == init[j];
        assert hops[i] == init[i];
      } else {
        assert forall j :: 0 <= j < |hops| ==> j == |hops| - 1 || hops[j] == init[j];
      }
    }
  }

  lemma {:induction false} NonEmptyConcat(k: Trust, a: seq<string>, b: seq<string>)
    ensures NonEmpty(k, a + b) == NonEmpty(k, a) + NonEmpty(k, b)
    decreases |b|
  {
    if b == [] {
      assert a + b == a;
    } else {
      var n := |b| - 1;
      assert (a + b)[..|a + b| - 1] == a + b[..n];
      NonEmptyConcat(k, a, b[..n]);
    }
  }

  lemma {:induction false} WalkIgnoresLeft(k: Trust, a: seq<string>, b: seq<string>)
    ensures RightmostUntrusted(k, a + b)
            == if RightmostUntrusted(k, b).Some? then RightmostUntrusted(k, b) else RightmostUntrusted(k, a)
    decreases |b|
  {
    if b == [] {
      assert a + b == a;
    } else {
      var n := |b| - 1;
      assert (a + b)[..|a + b| - 1] == a + b[..n];
      WalkIgnoresLeft(k, a, b[..n]);
    }
  }

  lemma HopsOfPrepended(k: Trust, prefix: string, header: string)
    ensures Hops(k, prefix + "," + header) == Hops(k, prefix) + Hops(k, header)
  {
    SplitConcat(prefix, header, ',');
    NonEmptyConcat(k, Split(prefix, ','), Split(header, ','));
  }

  /** Behind a trusted peer, when some hop is untrusted the rightmost such hop is the answer, and no
      text put in front of the header, commas and addresses included, changes it. */
  lemma PrependingChangesNothing(k: Trust, peer: string, header: string, prefix: string)
    requires k.configured && k.trusted(peer) && RightmostUntrusted(k, Hops(k, header)).Some?
    ensures Resolve(k, Some(peer), Some(header)) == RightmostUntrusted(k, Hops(k, header)).value
    ensures Resolve(k, Some(peer), Some(prefix + "," + header)) == Resolve(k, Some(peer), Some(header))
  {
    assert header != "" by {
      if header == "" {
        assert Split("", ',') == [""] && Strip(k, "") == "";
        assert NonEmpty(k, [""]) == [];
      }
    }
    HopsOfPrepended(k, prefix, header);
    WalkIgnoresLeft(k, Hops(k, prefix), Hops(k, header));
  }

  /** A single address as it would stand in a header. */
  predicate Plain(k: Trust, q: string) { q != "" && ',' !in q && Strip(k, q) == q }

  lemma PlainIsOneHop(k: Trust, q: string)
    requires Plain(k, q)
    ensures Hops(k, q) == [q]
  {
    SplitWithoutSeparator(q, ',');
    assert [q][..0] == [];
    assert NonEmpty(k, [q]) == NonEmpty(k, []) + [q];
  }

  /** Prepending an address leaves the answer alone exactly when some hop of the header is untrusted, or
      it is the answer already; when all are trusted, the prepended address becomes the answer. */
  lemma PrependedAddressIsIgnoredIff(k: Trust, peer: string, header: string, q: string)
    requires k.configured && k.trusted(peer) && Plain(k, q)
    ensures Resolve(k, Some(peer), Some(q + "," + header)) == Resolve(k, Some(peer), Some(header))
            <==> RightmostUntrusted(k, Hops(k, header)).Some? || q == Resolve(k, Some(peer), Some(header))
    ensures RightmostUntrusted(k, Hops(k, header)).None? ==> Resolve(k, Some(peer), Some(q + "," + header)) == q
  {
    if RightmostUntrusted(k, Hops(k, header)).Some? {
      PrependingChangesNothing(k, peer, header, q);
    } else {
      HopsOfPrepended(k, q, header);
      PlainIsOneHop(k, q);
      WalkIgnoresLeft(k, [q], Hops(k, header));
      assert RightmostUntrusted(k, [q]) == if k.trusted(q) then None else Some(q) by {
        assert [q][..0] == [];
      }
    }
  }
}
