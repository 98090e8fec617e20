/** Splitting, joining and replacing on a separator character, as Python's str does it. */
module Text {

  function Split(s: string, sep: char): (parts: seq<string>)
    ensures |parts| >= 1
    ensures forall i :: 0 <= i < |parts| ==> sep !in parts[i]
  {
    if s == "" then [""]
    else
      var rest := Split(s[1..], sep);
      if s[0] == sep then [""] + rest
      else [[s[0]] + rest[0]] + rest[1..]
  }

  function Join(parts: seq<string>, sep: char): string
    requires parts != []
  {
    if |parts| == 1 then parts[0] else parts[0] + [sep] + Join(parts[1..], sep)
  }

  function Replace(s: string, was: char, now: char): (r: string)
    ensures |r| == |s|
    ensures forall i :: 0 <= i < |s| ==> r[i] == if s[i] == was then now else s[i]
  {
    seq(|s|, i requires 0 <= i < |s| => if s[i] == was then now else s[i])
  }

  lemma {:induction false} SplitWithoutSeparator(s: string, sep: char)
    requires sep !in s
    ensures Split(s, sep) == [s]
  {
    if s != "" {
      SplitWithoutSeparator(s[1..], sep);
      assert [s[0]] + s[1..] == s;
    }
  }

  lemma {:induction false} SplitConcat(a: string, b: string, sep: char)
    ensures Split(a + [sep] + b, sep) == Split(a, sep) + Split(b, sep)
  {
    var s := a + [sep] + b;
    var y := Split(b, sep);
    if a == "" {
      assert s[1..] == b;
    } else {
      SplitConcat(a[1..], b, sep);
      assert s[0] == a[0] && s[1..] == a[1..] + [sep] + b;
      PrependFirst(a[0], Split(a[1..], sep), y, sep);
    }
  }

  /** Putting a character in front of the first part, or opening a new first part, does not care
      what follows. */
  lemma PrependFirst(c: char, x: seq<string>, y: seq<string>, sep: char)
    requires |x| >= 1
    ensures [""] + (x + y) == ([""] + x) + y
    ensures [[c] + (x + y)[0]] + (x + y)[1..] == ([[c] + x[0]] + x[1..]) + y
  {
  }

  /** Joining and splitting on a separator the parts do not contain gives the parts back. */
  lemma {:induction false} SplitJoin(parts: seq<string>, sep: char)
    requires parts != [] && forall i :: 0 <= i < |parts| ==> sep !in parts[i]
    ensures Split(Join(parts, sep), sep) == parts
  {
    SplitWithoutSeparator(parts[0], sep);
    if |parts| > 1 {
      SplitJoin(parts[1..], sep);
      SplitConcat(parts[0], Join(parts[1..], sep), sep);
    }
  }

  lemma {:induction false} SplitAtSeparator(s: string, sep: char)
    requires sep in s
    ensures |Split(s, sep)| >= 2
  {
    if s[0] != sep {
      SplitAtSeparator(s[1..], sep);
    }
  }

  /** A text put together from two separator-free pieces comes apart in no other way. */
  lemma TwoPieces(a: string, b: string, x: string, y: string, sep: char)
    requires sep !in a && sep !in b && a + [sep] + b == x + [sep] + y
    ensures a == x && b == y
  {
    SplitConcat(a, b, sep);
    SplitConcat(x, y, sep);
    SplitWithoutSeparator(a, sep);
    SplitWithoutSeparator(b, sep);
    var px, py := Split(x, sep), Split(y, sep);
    assert px + py == [a, b];
    if sep in x {
      SplitAtSeparator(x, sep);
    }
    if sep in y {
      SplitAtSeparator(y, sep);
    }
    SplitWithoutSeparator(x, sep);
    SplitWithoutSeparator(y, sep);
    assert (px + py)[0] == x && (px + py)[1] == y;
  }
}
