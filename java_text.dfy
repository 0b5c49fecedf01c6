/**
 * The parts of java.lang.String that the plugin relies on, stated on
 * `seq<char>`: trim, ASCII lower-casing, prefix and suffix tests,
 * String.split on a one-character class (trailing empty strings dropped),
 * decimal rendering of an int and truncating long division.
 */
module JavaText {

  /**
   * String.trim(): every leading and every trailing char up to U+0020 is
   * removed; what is left starts and ends above U+0020.
   */
  function Trim(s: string): (r: string)
    ensures |r| <= |s|
    ensures r == [] || (r[0] > ' ' && r[|r| - 1] > ' ')
    ensures s != [] && s[0] > ' ' ==> r != [] && r[0] == s[0]
  {
    if s == [] then s
    else if s[0] <= ' ' then Trim(s[1..])
    else if s[|s| - 1] <= ' ' then Trim(s[..|s| - 1])
    else s
  }

  /** `s.trim().isEmpty()`. */
  predicate IsBlank(s: string)
  {
    Trim(s) == []
  }

  /** A string is blank exactly when all its chars are at most U+0020. */
  lemma {:induction false} BlankIff(s: string)
    ensures IsBlank(s) <==> forall i :: 0 <= i < |s| ==> s[i] <= ' '
  {
    if s == [] {
    } else if s[0] <= ' ' {
      BlankIff(s[1..]);
      assert forall i :: 1 <= i < |s| ==> s[i] == s[1..][i - 1];
    } else if s[|s| - 1] <= ' ' {
      BlankIff(s[..|s| - 1]);
      assert forall i :: 0 <= i < |s| - 1 ==> s[i] == s[..|s| - 1][i];
    }
  }

  /** A string that starts and ends above U+0020 is its own trim. */
  lemma {:induction false} TrimKeeps(s: string)
    requires s == [] || (s[0] > ' ' && s[|s| - 1] > ' ')
    ensures Trim(s) == s
  {
  }

  /** Trimming twice is trimming once. */
  lemma {:induction false} TrimIdempotent(s: string)
    ensures Trim(Trim(s)) == Trim(s)
  {
    TrimKeeps(Trim(s));
  }

  /**
   * Trimming keeps a contiguous part of the string and removes only chars
   * up to U+0020 on either side of it.
   */
  lemma {:induction false} TrimSlice(s: string) returns (i: nat, j: nat)
    ensures i <= j <= |s| && Trim(s) == s[i..j]
    ensures forall k :: 0 <= k < i ==> s[k] <= ' '
    ensures forall k :: j <= k < |s| ==> s[k] <= ' '
    decreases |s|, 1
  {
    if s == [] {
      i, j := 0, 0;
    } else if s[0] <= ' ' {
      i, j := TrimSliceFront(s);
    } else if s[|s| - 1] <= ' ' {
      i, j := TrimSliceBack(s);
    } else {
      i, j := 0, |s|;
    }
  }

  /** The case of a leading char up to U+0020: the slice of the rest, shifted by one. */
  lemma {:induction false} TrimSliceFront(s: string) returns (i: nat, j: nat)
    requires s != [] && s[0] <= ' '
    ensures i <= j <= |s| && Trim(s) == s[i..j]
    ensures forall k :: 0 <= k < i ==> s[k] <= ' '
    ensures forall k :: j <= k < |s| ==> s[k] <= ' '
    decreases |s|, 0
  {
    var t := s[1..];
    assert Trim(s) == Trim(t);
    var i', j' := TrimSlice(t);
    i, j := i' + 1, j' + 1;
    assert t[i'..j'] == s[i..j];
    forall k | 0 < k < i
      ensures s[k] <= ' '
    {
      assert s[k] == t[k - 1];
    }
    forall k | j <= k < |s|
      ensures s[k] <= ' '
    {
      assert s[k] == t[k - 1];
    }
  }

  /** The case of a trailing char up to U+0020: the slice of the rest. */
  lemma {:induction false} TrimSliceBack(s: string) returns (i: nat, j: nat)
    requires s != [] && s[0] > ' ' && s[|s| - 1] <= ' '
    ensures i <= j <= |s| && Trim(s) == s[i..j]
    ensures forall k :: 0 <= k < i ==> s[k] <= ' '
    ensures forall k :: j <= k < |s| ==> s[k] <= ' '
    decreases |s|, 0
  {
    var t := s[..|s| - 1];
    assert Trim(s) == Trim(t);
    i, j := TrimSlice(t);
    assert t[i..j] == s[i..j];
    forall k | j <= k < |s| - 1
      ensures s[k] <= ' '
    {
      assert s[k] == t[k];
    }
  }

  /** Trimming adds no char. */
  lemma {:induction false} TrimChars(s: string, c: char)
    requires c in Trim(s)
    ensures c in s
  {
    var i, j := TrimSlice(s);
    var k :| 0 <= k < j - i && s[i..j][k] == c;
    assert s[i + k] == c;
  }

  function LowerChar(c: char): char
  {
    if 'A' <= c <= 'Z' then (c as int + 32) as char else c
  }

  /** String.toLowerCase() restricted to ASCII letters. */
  function ToLower(s: string): (r: string)
    ensures |r| == |s|
    ensures forall i :: 0 <= i < |s| ==> r[i] == LowerChar(s[i])
  {
    seq(|s|, i requires 0 <= i < |s| => LowerChar(s[i]))
  }

  predicate StartsWith(s: string, prefix: string)
  {
    |prefix| <= |s| && s[..|prefix|] == prefix
  }

  predicate EndsWith(s: string, suffix: string)
  {
    |suffix| <= |s| && s[|s| - |suffix|..] == suffix
  }

  predicate NoneIn(s: string, chars: set<char>)
  {
    forall i :: 0 <= i < |s| ==> s[i] !in chars
  }

  predicate AllIn(s: string, chars: set<char>)
  {
    forall i :: 0 <= i < |s| ==> s[i] in chars
  }

  /**
   * Every piece of `s` between separator chars, empty pieces included,
   * built from the right end of `s`.
   */
  function Pieces(s: string, seps: set<char>): (r: seq<string>)
    ensures |r| >= 1
  {
    if s == [] then [""] else Extend(Pieces(s[..|s| - 1], seps), s[|s| - 1], seps)
  }

  /** The pieces after one more char: a new empty piece, or a longer last piece. */
  function Extend(p: seq<string>, ch: char, seps: set<char>): (r: seq<string>)
    requires |p| >= 1
    ensures |r| >= 1
  {
    if ch in seps then p + [""] else p[..|p| - 1] + [p[|p| - 1] + [ch]]
  }

  /** Removes the trailing empty strings of a list, as String.split does. */
  function DropTrailingEmpty(parts: seq<string>): (r: seq<string>)
    ensures |r| <= |parts| && r == parts[..|r|]
    ensures forall k :: |r| <= k < |parts| ==> parts[k] == ""
    ensures r == [] || r[|r| - 1] != ""
  {
    if parts != [] && parts[|parts| - 1] == "" then DropTrailingEmpty(parts[..|parts| - 1]) else parts
  }

  /**
   * `s.split(regex)` for a regex that is one character class: an input
   * with no match (in particular the empty string) gives `[s]`, otherwise
   * the pieces without the trailing empty ones.
   */
  function Split(s: string, seps: set<char>): seq<string>
  {
    if s == "" then [""] else DropTrailingEmpty(Pieces(s, seps))
  }

  /** The last piece of `s` is its longest separator-free suffix. */
  lemma {:induction false} LastPiece(s: string, seps: set<char>)
    ensures var p := Pieces(s, seps); var last := p[|p| - 1];
      |last| <= |s| && s[|s| - |last|..] == last && NoneIn(last, seps) &&
      (|last| == |s| || s[|s| - |last| - 1] in seps)
  {
    if s != [] {
      var init := s[..|s| - 1];
      LastPiece(init, seps);
      var p := Pieces(init, seps);
      if s[|s| - 1] !in seps {
        var last := p[|p| - 1];
        assert Pieces(s, seps)[|Pieces(s, seps)| - 1] == last + [s[|s| - 1]];
        assert s == init + [s[|s| - 1]];
      }
    }
  }

  /**
   * After dropping trailing empty pieces nothing is left exactly when the
   * string is made of separators only; otherwise the last piece left is the
   * last non-empty run of non-separators, followed by separators only.
   */
  lemma {:induction false} SplitLast(s: string, seps: set<char>)
    ensures var d := DropTrailingEmpty(Pieces(s, seps));
      (d == [] <==> AllIn(s, seps)) &&
      (d != [] ==> LastSegment(s, d[|d| - 1], seps))
    decreases |s|, 1
  {
    if s != [] {
      var init := s[..|s| - 1];
      var c := s[|s| - 1];
      assert s == init + [c];
      var p := Pieces(init, seps);
      assert Pieces(s, seps) == Extend(p, c, seps);
      if c in seps {
        SplitLastSeparator(init, c, seps);
      } else {
        SplitLastOther(init, c, seps);
      }
    }
  }

  lemma {:induction false} SplitLastSeparator(init: string, c: char, seps: set<char>)
    requires c in seps
    ensures var s := init + [c]; var d := DropTrailingEmpty(Pieces(s, seps));
      (d == [] <==> AllIn(s, seps)) &&
      (d != [] ==> LastSegment(s, d[|d| - 1], seps))
    decreases |init| + 1, 0
  {
    var s := init + [c];
    assert s[..|s| - 1] == init;
    var p := Pieces(init, seps);
    assert Pieces(s, seps) == p + [""];
    assert (p + [""])[..|p|] == p;
    assert DropTrailingEmpty(Pieces(s, seps)) == DropTrailingEmpty(p);
    SplitLast(init, seps);
    var d := DropTrailingEmpty(p);
    AllInSnoc(init, c, seps);
    if d != [] {
      var seg := d[|d| - 1];
      var k :| SegmentAt(init, seg, seps, k);
      SegmentAtSnoc(init, seg, c, seps, k);
    }
  }

  lemma {:induction false} AllInSnoc(s: string, c: char, seps: set<char>)
    ensures AllIn(s + [c], seps) <==> AllIn(s, seps) && c in seps
  {
    if AllIn(s + [c], seps) {
      forall i | 0 <= i < |s| ensures s[i] in seps {
        assert (s + [c])[i] == s[i];
      }
      assert (s + [c])[|s|] == c;
    }
  }

  lemma {:induction false} SegmentAtSnoc(s: string, seg: string, c: char, seps: set<char>, k: int)
    requires SegmentAt(s, seg, seps, k) && c in seps
    ensures SegmentAt(s + [c], seg, seps, k)
  {
    var t := s + [c];
    assert t[k..k + |seg|] == s[k..k + |seg|];
    assert t[k + |seg|..] == s[k + |seg|..] + [c];
    AllInSnoc(s[k + |seg|..], c, seps);
  }

  lemma {:induction false} SplitLastOther(init: string, c: char, seps: set<char>)
    requires c !in seps
    ensures var s := init + [c]; var d := DropTrailingEmpty(Pieces(s, seps));
      d != [] && !AllIn(s, seps) && LastSegment(s, d[|d| - 1], seps)
  {
    var s := init + [c];
    assert s[..|s| - 1] == init;
    assert s[|s| - 1] == c;
    var p := Pieces(init, seps);
    LastPiece(init, seps);
    var last0 := p[|p| - 1];
    var q := Pieces(s, seps);
    assert q == p[..|p| - 1] + [last0 + [c]];
    assert q[|q| - 1] == last0 + [c];
    assert DropTrailingEmpty(q) == q;
    var seg := last0 + [c];
    var k := |init| - |last0|;
    assert s[k..k + |seg|] == init[k..] + [c];
    assert s[k + |seg|..] == [];
    assert SegmentAt(s, seg, seps, k);
    assert NoneIn(seg, seps) by {
      forall i | 0 <= i < |seg| ensures seg[i] !in seps {
        if i < |last0| { assert seg[i] == last0[i]; }
      }
    }
  }

  /** `seg` sits at index k of `s` and only separators follow it. */
  predicate SegmentAt(s: string, seg: string, seps: set<char>, k: int)
  {
    0 <= k <= |s| - |seg| && s[k..k + |seg|] == seg &&
    (k == 0 || s[k - 1] in seps) && AllIn(s[k + |seg|..], seps)
  }

  /** `seg` is the last non-empty separator-free segment of `s`. */
  ghost predicate LastSegment(s: string, seg: string, seps: set<char>)
  {
    seg != [] && NoneIn(seg, seps) && exists k :: SegmentAt(s, seg, seps, k)
  }

  /** A separator in the middle splits the pieces in two. */
  lemma {:induction false} PiecesAround(a: string, c: char, b: string, seps: set<char>)
    requires c in seps
    ensures Pieces(a + [c] + b, seps) == Pieces(a, seps) + Pieces(b, seps)
  {
    var s := a + [c] + b;
    if b == [] {
      assert s[..|s| - 1] == a;
    } else {
      var b' := b[..|b| - 1];
      var ch := b[|b| - 1];
      assert s[..|s| - 1] == a + [c] + b';
      assert b == b' + [ch];
      PiecesAround(a, c, b', seps);
      var x, y := Pieces(a, seps), Pieces(b', seps);
      calc {
        Pieces(s, seps);
        Extend(x + y, ch, seps);
        { ExtendAppend(x, y, ch, seps); }
        x + Extend(y, ch, seps);
        x + Pieces(b, seps);
      }
    }
  }

  lemma {:induction false} ExtendAppend(x: seq<string>, y: seq<string>, ch: char, seps: set<char>)
    requires |y| >= 1
    ensures Extend(x + y, ch, seps) == x + Extend(y, ch, seps)
  {
    if ch !in seps {
      assert (x + y)[..|x + y| - 1] == x + y[..|y| - 1];
    }
  }

  /** A string without separators is a single piece. */
  lemma {:induction false} PiecesOfSegment(s: string, seps: set<char>)
    requires NoneIn(s, seps)
    ensures Pieces(s, seps) == [s]
  {
    if s != [] {
      PiecesOfSegment(s[..|s| - 1], seps);
      assert s[..|s| - 1] + [s[|s| - 1]] == s;
    }
  }

  function DigitChar(d: nat): char
    requires d < 10
  {
    ('0' as int + d) as char
  }

  /** Decimal rendering of a natural number, most significant digit first. */
  function NatToString(n: nat): (r: string)
    ensures |r| >= 1
    ensures forall i :: 0 <= i < |r| ==> '0' <= r[i] <= '9'
  {
    if n < 10 then [DigitChar(n)] else NatToString(n / 10) + [DigitChar(n % 10)]
  }

  /** The number a string of decimal digits denotes, read most significant first. */
  function DigitsValue(s: string): nat
    requires forall i :: 0 <= i < |s| ==> '0' <= s[i] <= '9'
  {
    if s == [] then 0
    else 10 * DigitsValue(s[..|s| - 1]) + (s[|s| - 1] as int - '0' as int)
  }

  /**
   * The rendering reads back as the number itself, and has no leading zero
   * unless the number is zero.
   */
  lemma {:induction false} NatToStringValue(n: nat)
    ensures DigitsValue(NatToString(n)) == n
    ensures NatToString(n)[0] == '0' ==> n == 0
  {
    var r := NatToString(n);
    if n >= 10 {
      NatToStringValue(n / 10);
      var front := NatToString(n / 10);
      assert r[..|r| - 1] == front;
      assert r[0] == front[0];
    }
  }

  /** Integer.toString, as used by string concatenation with an int. */
  function IntToString(n: int): (r: string)
    ensures |r| >= 1
    ensures r[0] == '-' <==> n < 0
  {
    if n < 0 then "-" + NatToString(-n) else NatToString(n)
  }

  /** Java's `/` on long: truncation toward zero. */
  function JavaDiv(a: int, b: int): (q: int)
    requires b > 0
    ensures a >= 0 ==> 0 <= q && q * b <= a < q * b + b
    ensures a < 0 ==> q <= 0 && q * b - b < a <= q * b
  {
    if a >= 0 then a / b else -((-a) / b)
  }

  /** Milliseconds to whole seconds as `millis / 1000` on a Java long. */
  function EpochSeconds(millis: int): int
  {
    JavaDiv(millis, 1000)
  }

  /** Whole seconds drop the sub-second part toward zero, on either side of the epoch. */
  lemma {:induction false} EpochSecondsTruncates(millis: int)
    ensures millis >= 0 ==> 0 <= millis - 1000 * EpochSeconds(millis) < 1000
    ensures millis < 0 ==> -1000 < millis - 1000 * EpochSeconds(millis) <= 0
  {
  }

  /** Truncating division by 1000 never reverses an order. */
  lemma {:induction false} EpochSecondsMonotone(a: int, a': int)
    requires a <= a'
    ensures EpochSeconds(a) <= EpochSeconds(a')
  {
  }
}
