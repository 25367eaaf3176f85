/**
 * The parts of JavaScript's String.prototype that the studio relies on, on
 * strings as sequences of characters: prefix and suffix tests, searching,
 * `split` on one character, `join`, `trim`, and the decimal form of a number.
 */
module Strings {
  import opened Wrappers

  /** The characters of the regular-expression class `\s`; `trim` removes exactly these. */
  predicate IsSpace(c: char)
  {
    || c == ' ' || c == '\t' || c == '\n' || c == '\r' || c == '\U{B}' || c == '\U{C}'
    || c == '\U{A0}' || c == '\U{1680}' || ('\U{2000}' <= c <= '\U{200A}')
    || c == '\U{2028}' || c == '\U{2029}' || c == '\U{202F}' || c == '\U{205F}'
    || c == '\U{3000}' || c == '\U{FEFF}'
  }

  /** The characters of the regular-expression class `\w`. */
  predicate IsWordChar(c: char)
  {
    ('a' <= c <= 'z') || ('A' <= c <= 'Z') || ('0' <= c <= '9') || c == '_'
  }

  /** `s.startsWith(p)` */
  predicate StartsWith(s: string, p: string)
  {
    |p| <= |s| && s[..|p|] == p
  }

  /** `s.endsWith(p)` */
  predicate EndsWith(s: string, p: string)
  {
    |p| <= |s| && s[|s| - |p|..] == p
  }

  /** `p` occurs in `s` starting at index `i`. */
  predicate At(s: string, i: int, p: string)
  {
    0 <= i && i + |p| <= |s| && s[i..i + |p|] == p
  }

  /** `s.includes(p)` */
  predicate Contains(s: string, p: string)
  {
    exists i | 0 <= i <= |s| :: At(s, i, p)
  }

  /** `s.indexOf(p)`, with `None` for -1. */
  function IndexOf(s: string, p: string): (r: Option<nat>)
    ensures r.Some? ==> At(s, r.value, p) && forall j :: 0 <= j < r.value ==> !At(s, j, p)
    ensures r.None? ==> forall j :: !At(s, j, p)
  {
    IndexFrom(s, p, 0)
  }

  /** The first occurrence of `p` in `s` at index `k` or later. */
  function IndexFrom(s: string, p: string, k: nat): (r: Option<nat>)
    ensures r.Some? ==> k <= r.value && At(s, r.value, p)
    ensures r.Some? ==> forall j :: k <= j < r.value ==> !At(s, j, p)
    ensures r.None? ==> forall j :: k <= j ==> !At(s, j, p)
    decreases |s| + 1 - k
  {
    if k + |p| > |s| then None
    else if At(s, k, p) then Some(k)
    else IndexFrom(s, p, k + 1)
  }

  /** `s.split(c)` for a one-character separator. */
  function SplitOn(s: string, c: char): (parts: seq<string>)
    ensures |parts| >= 1
    ensures forall k :: 0 <= k < |parts| ==> c !in parts[k]
    ensures c !in s ==> parts == [s]
    ensures c in s ==> |parts| > 1
    decreases |s|
  {
    if |s| == 0 then [""]
    else
      var rest := SplitOn(s[1..], c);
      assert s == [s[0]] + s[1..];
      if s[0] == c then [""] + rest else [[s[0]] + rest[0]] + rest[1..]
  }

  /** `parts.join(c)` for a one-character separator. */
  function JoinOn(parts: seq<string>, c: char): string
    decreases |parts|
  {
    if |parts| == 0 then ""
    else if |parts| == 1 then parts[0]
    else parts[0] + [c] + JoinOn(parts[1..], c)
  }

  /** Splitting on `c` and joining with `c` gives back the string. */
  lemma {:induction false} JoinSplit(s: string, c: char)
    ensures JoinOn(SplitOn(s, c), c) == s
    decreases |s|
  {
    if |s| == 0 {
      assert SplitOn(s, c) == [""];
      assert JoinOn([""], c) == "";
    } else {
      JoinSplit(s[1..], c);
      if s[0] == c {
        JoinSplitAtSeparator(s, c);
      } else {
        JoinSplitAtOther(s, c);
      }
    }
  }

  /** The inductive step of `JoinSplit` for a text starting with the separator. */
  lemma JoinSplitAtSeparator(s: string, c: char)
    requires |s| > 0 && s[0] == c
    requires JoinOn(SplitOn(s[1..], c), c) == s[1..]
    ensures JoinOn(SplitOn(s, c), c) == s
  {
    var t := s[1..];
    var rest := SplitOn(t, c);
    assert SplitOn(s, c) == [""] + rest;
    JoinCons("", rest, c);
    assert "" + [c] + t == s;
  }

  /** The inductive step of `JoinSplit` for a text starting with another character. */
  lemma JoinSplitAtOther(s: string, c: char)
    requires |s| > 0 && s[0] != c
    requires JoinOn(SplitOn(s[1..], c), c) == s[1..]
    ensures JoinOn(SplitOn(s, c), c) == s
  {
    var t := s[1..];
    var rest := SplitOn(t, c);
    var x := rest[0];
    var tail := rest[1..];
    assert SplitOn(s, c) == [[s[0]] + x] + tail;
    if |rest| == 1 {
      assert JoinOn([[s[0]] + x], c) == [s[0]] + x;
      assert s == [s[0]] + t;
    } else {
      var j := JoinOn(tail, c);
      assert rest == [x] + tail;
      JoinCons([s[0]] + x, tail, c);
      JoinCons(x, tail, c);
      assert [s[0]] + x + [c] + j == [s[0]] + (x + [c] + j);
      assert s == [s[0]] + t;
    }
  }

  /** Joining a part in front of at least one more. */
  lemma JoinCons(x: string, rest: seq<string>, c: char)
    requires |rest| > 0
    ensures JoinOn([x] + rest, c) == x + [c] + JoinOn(rest, c)
  {
    assert ([x] + rest)[1..] == rest;
  }

  /**
   * The last piece of `s.split(c)` holds no `c`, ends `s`, follows a `c`
   * when `s` holds one, and is all of `s` when it holds none.
   */
  lemma LastPiece(s: string, c: char)
    ensures var parts := SplitOn(s, c); var r := parts[|parts| - 1];
      && c !in r
      && EndsWith(s, r)
      && (c in s ==> |r| < |s| && s[|s| - |r| - 1] == c)
      && (c !in s ==> r == s)
  {
    var parts := SplitOn(s, c);
    LastPieceFollows(s, c);
    assert parts[|parts| - 1] == LastOf(parts);
  }

  /** The last element of a non-empty sequence. */
  function LastOf<T>(xs: seq<T>): T
    requires |xs| > 0
  {
    xs[|xs| - 1]
  }

  /** The last piece of `s` from the last piece of `s[1..]`. */
  lemma LastPieceStep(s: string, c: char)
    requires |s| > 0
    ensures LastOf(SplitOn(s, c)) ==
      if c in s[1..] then LastOf(SplitOn(s[1..], c))
      else if s[0] == c then s[1..]
      else s
  {
    var t := s[1..];
    var rest := SplitOn(t, c);
    assert s == [s[0]] + t;
    if s[0] == c {
      assert SplitOn(s, c) == [""] + rest;
      assert LastOf(SplitOn(s, c)) == LastOf(rest);
      if c !in t {
        assert rest == [t];
      }
    } else if c in t {
      assert SplitOn(s, c) == [[s[0]] + rest[0]] + rest[1..];
      assert LastOf(SplitOn(s, c)) == LastOf(rest);
    } else {
      assert rest == [t];
      assert SplitOn(s, c) == [[s[0]] + t];
    }
  }

  /** The last piece ends `s`, directly after a `c` when `s` holds one. */
  lemma {:induction false} LastPieceFollows(s: string, c: char)
    ensures var r := LastOf(SplitOn(s, c));
      && |r| <= |s| && s[|s| - |r|..] == r
      && (c in s ==> |r| < |s| && s[|s| - |r| - 1] == c)
    decreases |s|
  {
    if |s| == 0 {
      assert SplitOn(s, c) == [""];
    } else {
      var t := s[1..];
      LastPieceStep(s, c);
      if c in t {
        LastPieceFollows(t, c);
        var r := LastOf(SplitOn(t, c));
        assert s[|s| - |r|..] == t[|t| - |r|..];
        assert s[|s| - |r| - 1] == t[|t| - |r| - 1];
      } else if s[0] == c {
        assert s[|s| - |t| - 1] == c;
      }
    }
  }

  /** `parts.join(sep)` */
  function JoinWith(parts: seq<string>, sep: string): string
    decreases |parts|
  {
    if |parts| == 0 then ""
    else if |parts| == 1 then parts[0]
    else parts[0] + sep + JoinWith(parts[1..], sep)
  }

  /** Every part of a join occurs in the joined text. */
  lemma {:induction false} JoinWithContains(parts: seq<string>, sep: string, k: nat)
    requires k < |parts|
    ensures Contains(JoinWith(parts, sep), parts[k])
    decreases |parts|
  {
    if |parts| == 1 {
      ContainsInfix("", parts[0], "");
      assert "" + parts[0] + "" == parts[0];
    } else if k == 0 {
      ContainsInfix("", parts[0], sep + JoinWith(parts[1..], sep));
      assert "" + parts[0] + (sep + JoinWith(parts[1..], sep)) == JoinWith(parts, sep);
    } else {
      JoinWithContains(parts[1..], sep, k - 1);
      ContainsIn(parts[0] + sep, JoinWith(parts[1..], sep), "", parts[k]);
      assert parts[0] + sep + JoinWith(parts[1..], sep) + "" == JoinWith(parts, sep);
    }
  }

  /** `b` occurs in `a + b + c`. */
  lemma ContainsInfix(a: string, b: string, c: string)
    ensures Contains(a + b + c, b)
  {
    assert At(a + b + c, |a|, b) by {
      assert (a + b + c)[|a|..|a| + |b|] == b;
    }
  }

  /** What occurs in `m` also occurs in `a + m + c`. */
  lemma ContainsIn(a: string, m: string, c: string, x: string)
    requires Contains(m, x)
    ensures Contains(a + m + c, x)
  {
    var i :| 0 <= i <= |m| && At(m, i, x);
    assert At(a + m + c, |a| + i, x) by {
      assert (a + m + c)[|a| + i..|a| + i + |x|] == m[i..i + |x|];
    }
  }

  /** What occurs in `m` also occurs in `a + m`. */
  lemma ContainsAfter(a: string, m: string, x: string)
    requires Contains(m, x)
    ensures Contains(a + m, x)
  {
    var i :| 0 <= i <= |m| && At(m, i, x);
    assert At(a + m, |a| + i, x) by {
      assert (a + m)[|a| + i..|a| + i + |x|] == m[i..i + |x|];
    }
  }

  /** The index just past the run of `\s` characters that starts at `i`. */
  function SpacesEnd(s: string, i: nat): (j: nat)
    requires i <= |s|
    ensures i <= j <= |s|
    ensures forall k :: i <= k < j ==> IsSpace(s[k])
    ensures j == |s| || !IsSpace(s[j])
    decreases |s| - i
  {
    if i < |s| && IsSpace(s[i]) then SpacesEnd(s, i + 1) else i
  }

  /** A run of spaces from `i` that stops before a non-space ends where `SpacesEnd` says. */
  lemma {:induction false} SpacesEndUnique(s: string, i: nat, j: nat)
    requires i <= j < |s|
    requires forall k :: i <= k < j ==> IsSpace(s[k])
    requires !IsSpace(s[j])
    ensures SpacesEnd(s, i) == j
    decreases j - i
  {
    if i < j {
      SpacesEndUnique(s, i + 1, j);
    }
  }

  /** `s.trim()`: white space removed from both ends. */
  function Trim(s: string): string
    decreases |s|
  {
    if |s| > 0 && IsSpace(s[0]) then Trim(s[1..])
    else if |s| > 0 && IsSpace(s[|s| - 1]) then Trim(s[..|s| - 1])
    else s
  }

  /** The trimmed text occurs in the text. */
  lemma {:induction false} TrimIn(s: string)
    ensures Contains(s, Trim(s))
    decreases |s|
  {
    if |s| > 0 && IsSpace(s[0]) {
      var t := s[1..];
      TrimIn(t);
      ContainsIn([s[0]], t, "", Trim(t));
      assert s == [s[0]] + t + "";
    } else if |s| > 0 && IsSpace(s[|s| - 1]) {
      var t := s[..|s| - 1];
      TrimIn(t);
      ContainsIn("", t, [s[|s| - 1]], Trim(t));
      assert s == "" + t + [s[|s| - 1]];
    } else {
      assert s[0..|s|] == s;
      assert At(s, 0, s);
    }
  }

  /** The trimmed text neither starts nor ends with white space. */
  lemma {:induction false} TrimEdges(s: string)
    ensures var r := Trim(s);
      r == "" || (!IsSpace(r[0]) && !IsSpace(r[|r| - 1]))
    decreases |s|
  {
    if |s| > 0 && IsSpace(s[0]) {
      TrimEdges(s[1..]);
    } else if |s| > 0 && IsSpace(s[|s| - 1]) {
      TrimEdges(s[..|s| - 1]);
    }
  }

  /** The trimmed text is empty exactly when the text is all white space. */
  lemma {:induction false} TrimEmpty(s: string)
    ensures Trim(s) == "" <==> forall k :: 0 <= k < |s| ==> IsSpace(s[k])
    decreases |s|
  {
    if |s| > 0 && IsSpace(s[0]) {
      var t := s[1..];
      TrimEmpty(t);
      if Trim(t) == "" {
        forall k | 0 <= k < |s|
          ensures IsSpace(s[k])
        {
          if k > 0 {
            assert s[k] == t[k - 1];
          }
        }
      } else {
        var k :| 0 <= k < |t| && !IsSpace(t[k]);
        assert s[k + 1] == t[k];
      }
    } else if |s| > 0 && IsSpace(s[|s| - 1]) {
      var t := s[..|s| - 1];
      TrimEmpty(t);
      assert t[0] == s[0];
    }
  }

  /** Where the trimmed text lies in the text: only white space is cut at either end. */
  lemma {:induction false} TrimSlice(s: string) returns (a: nat, b: nat)
    ensures a <= b <= |s| && Trim(s) == s[a..b]
    ensures forall k :: 0 <= k < a ==> IsSpace(s[k])
    ensures forall k :: b <= k < |s| ==> IsSpace(s[k])
    decreases |s|
  {
    if |s| > 0 && IsSpace(s[0]) {
      var t := s[1..];
      var a', b' := TrimSlice(t);
      a, b := a' + 1, b' + 1;
      assert t[a'..b'] == s[a..b];
      forall k | 0 <= k < a
        ensures IsSpace(s[k])
      {
        if k > 0 {
          assert s[k] == t[k - 1];
        }
      }
      forall k | b <= k < |s|
        ensures IsSpace(s[k])
      {
        assert s[k] == t[k - 1];
      }
    } else if |s| > 0 && IsSpace(s[|s| - 1]) {
      var t := s[..|s| - 1];
      a, b := TrimSlice(t);
      assert t[a..b] == s[a..b];
      forall k | b <= k < |s|
        ensures IsSpace(s[k])
      {
        if k < |s| - 1 {
          assert s[k] == t[k];
        }
      }
    } else {
      a, b := 0, |s|;
      assert s[0..|s|] == s;
    }
  }

  /**
   * The trimmed text is the largest piece of the text that neither starts
   * nor ends with white space: only white space is cut before and after it,
   * and it is empty exactly when the text is all white space.
   */
  lemma TrimSpec(s: string)
    ensures var r := Trim(s);
      && Contains(s, r)
      && (r == "" || (!IsSpace(r[0]) && !IsSpace(r[|r| - 1])))
      && (r == "" <==> forall k :: 0 <= k < |s| ==> IsSpace(s[k]))
      && exists a, b ::
           && 0 <= a <= b <= |s| && r == s[a..b]
           && (forall k :: 0 <= k < a ==> IsSpace(s[k]))
           && (forall k :: b <= k < |s| ==> IsSpace(s[k]))
  {
    TrimIn(s);
    TrimEdges(s);
    TrimEmpty(s);
    var a, b := TrimSlice(s);
  }

  /** The decimal digit character for `d`. */
  function DigitChar(d: nat): (c: char)
    requires d < 10
    ensures '0' <= c <= '9'
  {
    ('0' as int + d) as char
  }

  /** `String(n)` for a natural number: its decimal digits. */
  function Digits(n: nat): (r: string)
    ensures |r| >= 1
    ensures forall k :: 0 <= k < |r| ==> '0' <= r[k] <= '9'
    decreases n
  {
    (if n < 10 then "" else Digits(n / 10)) + [DigitChar(n % 10)]
  }
}
