// Python string built-ins the core relies on: str.isspace, str.strip,
// str.join, str(int) for non-negative integers and ASCII str.lower.

module Text {

  datatype Option<T> = None | Some(value: T)

  /** Python's str.isspace, which is also the class of `\s` in a str regular
      expression and the set of characters str.strip() removes. */
  predicate IsSpace(c: char)
  {
    || ('\t' <= c <= '\r')
    || ('\U{1C}' <= c <= '\U{1F}')
    || c == ' ' || c == '\U{85}' || c == '\U{A0}' || c == '\U{1680}'
    || ('\U{2000}' <= c <= '\U{200A}')
    || c == '\U{2028}' || c == '\U{2029}' || c == '\U{202F}' || c == '\U{205F}' || c == '\U{3000}'
  }

  predicate AllSpace(s: string)
  {
    forall i :: 0 <= i < |s| ==> IsSpace(s[i])
  }

  /** `x` occurs in `s` starting at position `pos`. */
  predicate IsInfixAt(s: string, x: string, pos: nat)
  {
    pos + |x| <= |s| && s[pos..pos + |x|] == x
  }

  predicate IsPrefix(x: string, s: string)
  {
    |x| <= |s| && s[..|x|] == x
  }

  predicate IsSuffix(x: string, s: string)
  {
    |x| <= |s| && s[|s| - |x|..] == x
  }

  /** The first index at or after `from` whose character fails `p` (or |s|). */
  function SpanEnd(s: string, from: nat, p: char -> bool): (e: nat)
    requires from <= |s|
    ensures from <= e <= |s|
    ensures forall j :: from <= j < e ==> p(s[j])
    ensures e == |s| || !p(s[e])
    decreases |s| - from
  {
    if from == |s| || !p(s[from]) then from else SpanEnd(s, from + 1, p)
  }

  /** `SpanEnd` is the end of the run: any `e` that closes a run of `p`
      starting at `from` is it. */
  lemma {:induction false} SpanEndIs(s: string, from: nat, e: nat, p: char -> bool)
    requires from <= e <= |s|
    requires forall j :: from <= j < e ==> p(s[j])
    requires e == |s| || !p(s[e])
    ensures SpanEnd(s, from, p) == e
    decreases e - from
  {
    if from < e {
      SpanEndIs(s, from + 1, e, p);
    }
  }

  // ---------------------------------------------------------------------
  // str.strip()

  function TrimStart(s: string): (r: string)
    ensures IsSuffix(r, s)
    ensures r == [] || !IsSpace(r[0])
  {
    if s != [] && IsSpace(s[0]) then
      var r := TrimStart(s[1..]);
      assert s[1..][|s| - 1 - |r|..] == s[|s| - |r|..];
      r
    else s
  }

  function TrimEnd(s: string): (r: string)
    ensures IsPrefix(r, s)
    ensures r == [] || !IsSpace(r[|r| - 1])
  {
    if s != [] && IsSpace(s[|s| - 1]) then TrimEnd(s[..|s| - 1]) else s
  }

  lemma {:induction false} TrimStartRemovesSpace(s: string)
    ensures AllSpace(s[..|s| - |TrimStart(s)|])
  {
    if s != [] && IsSpace(s[0]) {
      var t := s[1..];
      TrimStartRemovesSpace(t);
      var n := |s| - |TrimStart(s)|;
      forall i | 0 <= i < n
        ensures IsSpace(s[..n][i])
      {
        if i > 0 {
          assert s[..n][i] == t[..|t| - |TrimStart(t)|][i - 1];
        }
      }
    }
  }

  lemma {:induction false} TrimEndRemovesSpace(s: string)
    ensures AllSpace(s[|TrimEnd(s)|..])
  {
    if s != [] && IsSpace(s[|s| - 1]) {
      var t := s[..|s| - 1];
      TrimEndRemovesSpace(t);
      var n := |TrimEnd(s)|;
      forall i | 0 <= i < |s| - n
        ensures IsSpace(s[n..][i])
      {
        if n + i < |t| {
          assert s[n..][i] == t[n..][i];
        }
      }
    }
  }

  /** Where the stripped text starts in `s`. */
  function StripStart(s: string): (a: nat)
    ensures a <= |s|
  {
    |s| - |TrimStart(s)|
  }

  /** Python's `s.strip()`: a contiguous part of `s` that neither starts
      nor ends with whitespace. */
  function Strip(s: string): (r: string)
    ensures StripStart(s) + |r| <= |s| && r == s[StripStart(s)..StripStart(s) + |r|]
    ensures r == [] || (!IsSpace(r[0]) && !IsSpace(r[|r| - 1]))
  {
    var t := TrimStart(s);
    assert t == s[|s| - |t|..];
    TrimEnd(t)
  }

  /** What strip() removes is whitespace, at both ends, and the result is
      empty exactly when `s` is all whitespace. */
  lemma StripRemovesOnlySpace(s: string)
    ensures AllSpace(s[..StripStart(s)]) && AllSpace(s[StripStart(s) + |Strip(s)|..])
    ensures Strip(s) == [] <==> AllSpace(s)
  {
    var t := TrimStart(s);
    var r := TrimEnd(t);
    var a := |s| - |t|;
    TrimStartRemovesSpace(s);
    TrimEndRemovesSpace(t);
    assert t == s[a..];
    assert s[a + |r|..] == t[|r|..];
    if r == [] {
      assert t[|r|..] == t;
      forall i | 0 <= i < |s|
        ensures IsSpace(s[i])
      {
        assert s[..a][i] == s[i];
      }
    }
  }

  // ---------------------------------------------------------------------
  // str.join and list concatenation

  /** Python's `sep.join(xs)`. */
  function Join(xs: seq<string>, sep: string): string
  {
    if xs == [] then ""
    else if |xs| == 1 then xs[0]
    else xs[0] + sep + Join(xs[1..], sep)
  }

  /** `pieces[0] + seps[0] + pieces[1] + ... + seps[n-1] + pieces[n]`: the
      text a split came from, given the separators it removed. */
  function Interleave(pieces: seq<string>, seps: seq<string>): string
    requires |pieces| == |seps| + 1
    decreases |seps|
  {
    if seps == [] then pieces[0] else pieces[0] + seps[0] + Interleave(pieces[1..], seps[1..])
  }

  /** The rest of a string from `a` is its three consecutive slices. */
  lemma SliceThree(s: string, a: nat, k: nat, e: nat)
    requires a <= k <= e <= |s|
    ensures s[a..] == s[a..k] + s[k..e] + s[e..]
  {
  }

  /** Interleaving one more piece and separator in front. */
  lemma InterleaveCons(p0: string, sep: string, pieces: seq<string>, seps: seq<string>)
    requires |pieces| == |seps| + 1
    ensures Interleave([p0] + pieces, [sep] + seps) == p0 + sep + Interleave(pieces, seps)
  {
    assert ([p0] + pieces)[1..] == pieces && ([sep] + seps)[1..] == seps;
  }

  /** Position at which the `k`th element starts in `Join(xs, sep)`. */
  function JoinOffset(xs: seq<string>, sep: string, k: nat): nat
    requires k < |xs|
  {
    if k == 0 then 0 else |xs[0]| + |sep| + JoinOffset(xs[1..], sep, k - 1)
  }

  /** Every element appears in the joined string at its offset, separated
      from the next one by exactly `sep`, and the offsets increase. */
  lemma {:induction false} JoinPlacesElements(xs: seq<string>, sep: string, k: nat)
    requires k < |xs|
    ensures IsInfixAt(Join(xs, sep), xs[k], JoinOffset(xs, sep, k))
    ensures k + 1 < |xs| ==>
              JoinOffset(xs, sep, k + 1) == JoinOffset(xs, sep, k) + |xs[k]| + |sep|
              && IsInfixAt(Join(xs, sep), sep, JoinOffset(xs, sep, k) + |xs[k]|)
    ensures k + 1 == |xs| ==> JoinOffset(xs, sep, k) + |xs[k]| == |Join(xs, sep)|
  {
    var j := Join(xs, sep);
    if k == 0 {
      if |xs| > 1 {
        JoinHead(xs, sep);
      }
    } else {
      var pre, rest := xs[0] + sep, Join(xs[1..], sep);
      var o := JoinOffset(xs[1..], sep, k - 1);
      JoinPlacesElements(xs[1..], sep, k - 1);
      assert xs[1..][k - 1] == xs[k];
      assert j == pre + rest;
      InfixAfter(pre, rest, xs[k], o);
      if k + 1 < |xs| {
        InfixAfter(pre, rest, sep, o + |xs[k]|);
      }
    }
  }

  lemma JoinHead(xs: seq<string>, sep: string)
    requires |xs| > 1
    ensures IsInfixAt(Join(xs, sep), xs[0], 0) && IsInfixAt(Join(xs, sep), sep, |xs[0]|)
  {
    var j := Join(xs, sep);
    assert j == xs[0] + sep + Join(xs[1..], sep);
    assert j[..|xs[0]|] == xs[0];
    assert j[|xs[0]|..|xs[0]| + |sep|] == sep;
  }

  /** An occurrence inside `s` is an occurrence in `pre + s`, shifted by `|pre|`. */
  lemma InfixAfter(pre: string, s: string, x: string, pos: nat)
    requires IsInfixAt(s, x, pos)
    ensures IsInfixAt(pre + s, x, |pre| + pos)
  {
    assert (pre + s)[|pre| + pos..|pre| + pos + |x|] == s[pos..pos + |x|];
  }

  function Concat(xs: seq<string>): string
  {
    if xs == [] then "" else xs[0] + Concat(xs[1..])
  }

  lemma {:induction false} ConcatAppend(xs: seq<string>, ys: seq<string>)
    ensures Concat(xs + ys) == Concat(xs) + Concat(ys)
  {
    if xs != [] {
      assert (xs + ys)[0] == xs[0];
      assert (xs + ys)[1..] == xs[1..] + ys;
      ConcatAppend(xs[1..], ys);
    } else {
      assert xs + ys == ys;
    }
  }

  // ---------------------------------------------------------------------
  // str(n) for n >= 0, and its inverse

  predicate IsDigit(c: char)
  {
    '0' <= c <= '9'
  }

  function DigitChar(d: nat): (c: char)
    requires d < 10
    ensures IsDigit(c)
  {
    (48 + d) as char
  }

  /** Python's `str(n)` for a non-negative integer: decimal digits, no sign,
      no leading zero. */
  function NatToString(n: nat): (r: string)
    ensures |r| >= 1 && forall i :: 0 <= i < |r| ==> IsDigit(r[i])
    ensures r[0] == '0' ==> n == 0
  {
    if n < 10 then [DigitChar(n)] else NatToString(n / 10) + [DigitChar(n % 10)]
  }

  /** The value of a string of decimal digits. */
  function ParseNat(s: string): nat
    requires forall i :: 0 <= i < |s| ==> IsDigit(s[i])
  {
    if s == [] then 0
    else
      assert IsDigit(s[|s| - 1]);
      10 * ParseNat(s[..|s| - 1]) + (s[|s| - 1] as int - 48)
  }

  /** Reading the rendered number back gives the number: the label is faithful. */
  lemma {:induction false} ParseNatToString(n: nat)
    ensures ParseNat(NatToString(n)) == n
  {
    var r := NatToString(n);
    if n >= 10 {
      ParseNatToString(n / 10);
      assert r[..|r| - 1] == NatToString(n / 10);
    }
  }

  // ---------------------------------------------------------------------
  // str.lower() restricted to ASCII

  function LowerChar(c: char): (r: char)
    ensures 'A' <= c <= 'Z' ==> r as int == c as int + 32 && 'a' <= r <= 'z'
    ensures !('A' <= c <= 'Z') ==> r == c
  {
    if 'A' <= c <= 'Z' then (c as int + 32) as char else c
  }

  function Lower(s: string): (r: string)
    ensures |r| == |s|
    ensures forall i :: 0 <= i < |s| ==> r[i] == LowerChar(s[i])
  {
    if s == [] then [] else [LowerChar(s[0])] + Lower(s[1..])
  }
}
