/** The JavaScript string and array built-ins that the path code is made of,
    with their JavaScript meaning: `String.prototype.split` on a one-character
    separator, `Array.prototype.join`, `filter(p => p)`, `indexOf`,
    `slice(0, n)` and `String.prototype.includes`. */
module Text {

  /** `s.split(sep)`: the pieces between separators, empty pieces included,
      so a string with k separators has k + 1 pieces. */
  function Split(s: string, sep: char): (r: seq<string>)
    ensures |r| >= 1
    ensures forall i :: 0 <= i < |r| ==> sep !in r[i]
    decreases |s|
  {
    if |s| == 0 then [""]
    else if s[0] == sep then
      var rest := Split(s[1..], sep);
      assert ([""] + rest)[1..] == rest;
      [""] + rest
    else
      var rest := Split(s[1..], sep);
      var r := [[s[0]] + rest[0]] + rest[1..];
      assert r[1..] == rest[1..];
      r
  }

  /** `parts.join(sep)`: an empty array joins to the empty string; otherwise the
      result starts with the first part, and a separator follows it when there
      is more than one. */
  function Join(parts: seq<string>, sep: char): (r: string)
    ensures |parts| == 0 ==> r == ""
    ensures |parts| > 0 ==> parts[0] <= r
    ensures |parts| > 1 ==> |parts[0]| < |r| && r[|parts[0]|] == sep
    decreases |parts|
  {
    if |parts| == 0 then ""
    else if |parts| == 1 then parts[0]
    else parts[0] + [sep] + Join(parts[1..], sep)
  }

  /** `parts.filter(p => p)`: the empty strings are dropped, the order kept. */
  function NonEmpty(parts: seq<string>): (r: seq<string>)
    ensures |r| <= |parts|
    ensures forall i :: 0 <= i < |r| ==> r[i] != ""
    ensures forall p :: p in r <==> p in parts && p != ""
    decreases |parts|
  {
    if |parts| == 0 then []
    else (if parts[0] == "" then [] else [parts[0]]) + NonEmpty(parts[1..])
  }

  /** `xs.indexOf(x)`: the first position holding x, or -1 when there is none. */
  function IndexOf<T(==)>(xs: seq<T>, x: T): (r: int)
    ensures -1 <= r < |xs|
    ensures r == -1 <==> x !in xs
    ensures 0 <= r ==> xs[r] == x && x !in xs[..r]
    decreases |xs|
  {
    if |xs| == 0 then -1
    else if xs[0] == x then 0
    else
      var k := IndexOf(xs[1..], x);
      if k == -1 then -1
      else
        assert xs[..k + 1] == [xs[0]] + xs[1..][..k];
        k + 1
  }

  /** `xs.slice(0, n)` for n >= 0: the first n elements, or all of them when
      there are fewer. */
  function Take<T>(xs: seq<T>, n: nat): (r: seq<T>)
    ensures |r| == if n < |xs| then n else |xs|
    ensures r <= xs
  {
    if n < |xs| then xs[..n] else xs
  }

  /** `sub` starts at position i of `s`. */
  predicate OccursAt(s: string, sub: string, i: int)
  {
    0 <= i <= |s| - |sub| && s[i..i + |sub|] == sub
  }

  /** `s.includes(sub)`: some position of `s` starts a copy of `sub`. */
  function Includes(s: string, sub: string): (r: bool)
    ensures r <==> exists i :: OccursAt(s, sub, i)
    decreases |s|
  {
    if sub <= s then
      assert OccursAt(s, sub, 0);
      true
    else if |s| == 0 then false
    else
      var r := Includes(s[1..], sub);
      assert r ==> exists i :: OccursAt(s, sub, i) by {
        if r {
          var i :| OccursAt(s[1..], sub, i);
          assert s[1..][i..i + |sub|] == s[i + 1..i + 1 + |sub|];
          assert OccursAt(s, sub, i + 1);
        }
      }
      assert (exists i :: OccursAt(s, sub, i)) ==> r by {
        if exists i :: OccursAt(s, sub, i) {
          var i :| OccursAt(s, sub, i);
          assert i != 0;
          assert s[1..][i - 1..i - 1 + |sub|] == s[i..i + |sub|];
          assert OccursAt(s[1..], sub, i - 1);
        }
      }
      r
  }

  /** Putting an empty piece in front adds one separator in front. */
  lemma JoinConsEmpty(parts: seq<string>, sep: char)
    requires |parts| >= 1
    ensures Join([""] + parts, sep) == [sep] + Join(parts, sep)
  {
    assert ([""] + parts)[1..] == parts;
  }

  /** Putting a character in front of the first piece puts it in front of the
      joined string. */
  lemma JoinConsChar(c: char, parts: seq<string>, sep: char)
    requires |parts| >= 1
    ensures Join([[c] + parts[0]] + parts[1..], sep) == [c] + Join(parts, sep)
  {
    var r := [[c] + parts[0]] + parts[1..];
    assert r[1..] == parts[1..];
  }

  /** Joining the pieces of a split with the same separator gives the string
      back. */
  lemma {:induction false} JoinOfSplit(s: string, sep: char)
    ensures Join(Split(s, sep), sep) == s
    decreases |s|
  {
    if |s| > 0 {
      var rest := Split(s[1..], sep);
      JoinOfSplit(s[1..], sep);
      if s[0] == sep {
        JoinConsEmpty(rest, sep);
      } else {
        JoinConsChar(s[0], rest, sep);
      }
      assert [s[0]] + s[1..] == s;
    }
  }

  /** Adding pieces after a split keeps its first piece first. */
  lemma ConsCharAppend(c: char, x: seq<string>, y: seq<string>)
    requires |x| >= 1
    ensures ([[c] + x[0]] + x[1..]) + y == [[c] + (x + y)[0]] + (x + y)[1..]
  {
    assert (x + y)[1..] == x[1..] + y;
  }

  /** Splitting at one separator splits both sides independently:
      `(a + sep + b).split(sep)` is `a.split(sep)` followed by `b.split(sep)`. */
  lemma {:induction false} SplitAround(a: string, b: string, sep: char)
    ensures Split(a + [sep] + b, sep) == Split(a, sep) + Split(b, sep)
    decreases |a|
  {
    var s := a + [sep] + b;
    if |a| == 0 {
      assert s == [sep] + b;
      assert s[1..] == b;
    } else {
      assert s[0] == a[0];
      assert s[1..] == a[1..] + [sep] + b;
      SplitAround(a[1..], b, sep);
      if a[0] != sep {
        ConsCharAppend(a[0], Split(a[1..], sep), Split(b, sep));
      }
    }
  }

  /** Filtering distributes over concatenation. */
  lemma {:induction false} NonEmptyAppend(a: seq<string>, b: seq<string>)
    ensures NonEmpty(a + b) == NonEmpty(a) + NonEmpty(b)
    decreases |a|
  {
    if |a| == 0 {
      assert a + b == b;
    } else {
      assert (a + b)[1..] == a[1..] + b;
      NonEmptyAppend(a[1..], b);
    }
  }

  /** A piece without separators splits into itself. */
  lemma {:induction false} SplitOfPiece(s: string, sep: char)
    requires sep !in s
    ensures Split(s, sep) == [s]
    decreases |s|
  {
    if |s| > 0 {
      SplitOfPiece(s[1..], sep);
      assert [s[0]] + s[1..] == s;
    }
  }
}
