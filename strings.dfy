/**
 * The string operations of Python (and of the JavaScript view) that the rest of
 * the model relies on, written over `seq<char>`.
 */
module Strings {

  import opened Wrappers

  /** Python `s.split(c)` for a one-character separator: never empty, keeps empty parts. */
  function Split(s: string, c: char): (parts: seq<string>)
    ensures |parts| >= 1
  {
    if |s| == 0 then [""]
    else
      var rest := Split(s[1..], c);
      if s[0] == c then [""] + rest
      else [[s[0]] + rest[0]] + rest[1..]
  }

  /** Python `c.join(parts)`. */
  function Join(parts: seq<string>, c: char): string
  {
    if |parts| == 0 then ""
    else if |parts| == 1 then parts[0]
    else parts[0] + [c] + Join(parts[1..], c)
  }

  /** Python `s.count(c)` for one character. */
  function Count(s: string, c: char): nat
  {
    if |s| == 0 then 0
    else (if s[0] == c then 1 else 0) + Count(s[1..], c)
  }

  lemma {:induction false} CountZero(s: string, c: char)
    ensures Count(s, c) == 0 <==> c !in s
  {
    if |s| > 0 {
      CountZero(s[1..], c);
      assert s == [s[0]] + s[1..];
    }
  }

  /** Joining the parts of a split with the same separator gives the string back. */
  lemma {:induction false} JoinSplit(s: string, c: char)
    ensures Join(Split(s, c), c) == s
  {
    if |s| > 0 {
      var rest := Split(s[1..], c);
      JoinSplit(s[1..], c);
      if s[0] == c {
        assert Join([""] + rest, c) == "" + [c] + Join(rest, c);
      } else if |rest| == 1 {
        assert Split(s, c) == [[s[0]] + rest[0]];
      } else {
        var parts := [[s[0]] + rest[0]] + rest[1..];
        assert parts[1..] == rest[1..];
        assert Join(rest, c) == rest[0] + [c] + Join(rest[1..], c);
      }
    }
  }

  /** No part of a split contains the separator. */
  lemma {:induction false} SplitPartsFree(s: string, c: char)
    ensures forall i :: 0 <= i < |Split(s, c)| ==> c !in Split(s, c)[i]
  {
    if |s| > 0 {
      SplitPartsFree(s[1..], c);
    }
  }

  /** A split has one more part than the string has separators. */
  lemma {:induction false} SplitLength(s: string, c: char)
    ensures |Split(s, c)| == Count(s, c) + 1
  {
    if |s| > 0 {
      SplitLength(s[1..], c);
    }
  }

  lemma {:induction false} SplitFree(a: string, c: char)
    requires c !in a
    ensures Split(a, c) == [a]
  {
    if |a| > 0 {
      SplitFree(a[1..], c);
      assert [a[0]] + a[1..] == a;
    }
  }

  lemma {:induction false} SplitCons(a: string, c: char, t: string)
    requires c !in a
    ensures Split(a + [c] + t, c) == [a] + Split(t, c)
  {
    if |a| == 0 {
      assert a + [c] + t == [c] + t;
      assert ([c] + t)[1..] == t;
    } else {
      var s := a + [c] + t;
      assert s[1..] == a[1..] + [c] + t;
      SplitCons(a[1..], c, t);
      assert [a[0]] + a[1..] == a;
    }
  }

  /** Splitting a join of separator-free parts gives the parts back. */
  lemma {:induction false} SplitJoin(parts: seq<string>, c: char)
    requires |parts| >= 1
    requires forall i :: 0 <= i < |parts| ==> c !in parts[i]
    ensures Split(Join(parts, c), c) == parts
  {
    if |parts| == 1 {
      SplitFree(parts[0], c);
    } else {
      SplitJoin(parts[1..], c);
      SplitCons(parts[0], c, Join(parts[1..], c));
    }
  }

  /**
   * Splitting a join whose parts but the last are separator-free gives those parts back,
   * followed by the split of the last one.
   */
  lemma {:induction false} SplitJoinLast(parts: seq<string>, c: char)
    requires |parts| >= 1
    requires forall i :: 0 <= i < |parts| - 1 ==> c !in parts[i]
    ensures Split(Join(parts, c), c) == parts[..|parts| - 1] + Split(parts[|parts| - 1], c)
  {
    if |parts| > 1 {
      var rest := parts[1..];
      assert forall i :: 0 <= i < |rest| - 1 ==> rest[i] == parts[i + 1];
      SplitJoinLast(rest, c);
      assert Join(parts, c) == parts[0] + [c] + Join(rest, c);
      SplitCons(parts[0], c, Join(rest, c));
      assert rest[|rest| - 1] == parts[|parts| - 1];
      assert parts[..|parts| - 1] == [parts[0]] + rest[..|rest| - 1];
    }
  }

  /** The first part of a split is the longest separator-free prefix of the string. */
  lemma {:induction false} FirstPartPrefix(s: string, c: char)
    ensures c !in Split(s, c)[0]
    ensures StartsWith(s, Split(s, c)[0])
    ensures Split(s, c)[0] == s || StartsWith(s, Split(s, c)[0] + [c])
  {
    if |s| > 0 {
      FirstPartPrefix(s[1..], c);
      assert s == [s[0]] + s[1..];
    }
  }

  /** Python `s.endswith(suffix)`. */
  predicate EndsWith(s: string, suffix: string)
  {
    |suffix| <= |s| && s[|s| - |suffix|..] == suffix
  }

  /** Python `s.startswith(prefix)`. */
  predicate StartsWith(s: string, prefix: string)
  {
    |prefix| <= |s| && s[..|prefix|] == prefix
  }

  /** Python `s[:n]`: the first `n` characters, or all of them when there are fewer. */
  function Take(s: string, n: nat): (r: string)
    ensures |r| == if |s| <= n then |s| else n
    ensures StartsWith(s, r)
  {
    if |s| <= n then s else s[..n]
  }

  /** The characters Python's `\s` and `str.isspace()`/`str.strip()` treat as whitespace. */
  predicate IsSpace(ch: char)
  {
    var n := ch as int;
    n == 0x20 || 0x09 <= n <= 0x0d || 0x1c <= n <= 0x1f || n == 0x85 || n == 0xa0
    || n == 0x1680 || 0x2000 <= n <= 0x200a || n == 0x2028 || n == 0x2029
    || n == 0x202f || n == 0x205f || n == 0x3000
  }

  /** Python `s.lstrip()`. */
  function LStrip(s: string): (r: string)
    ensures |r| <= |s| && EndsWith(s, r)
    ensures r == [] || !IsSpace(r[0])
    ensures forall i :: 0 <= i < |s| - |r| ==> IsSpace(s[i])
  {
    if |s| > 0 && IsSpace(s[0]) then LStrip(s[1..]) else s
  }

  /** Python `s.rstrip()`. */
  function RStrip(s: string): (r: string)
    ensures |r| <= |s| && StartsWith(s, r)
    ensures r == [] || !IsSpace(r[|r| - 1])
    ensures forall i :: |r| <= i < |s| ==> IsSpace(s[i])
  {
    if |s| > 0 && IsSpace(s[|s| - 1]) then RStrip(s[..|s| - 1]) else s
  }

  /** Python `s.strip()`. */
  function Strip(s: string): string
  {
    LStrip(RStrip(s))
  }

  /** Python `s.lstrip(ch)` for one character. */
  function LStripChar(s: string, ch: char): (r: string)
    ensures EndsWith(s, r)
    ensures r == [] || r[0] != ch
    ensures forall i :: 0 <= i < |s| - |r| ==> s[i] == ch
  {
    if |s| > 0 && s[0] == ch then LStripChar(s[1..], ch) else s
  }

  /** Python `s.rstrip(ch)` for one character. */
  function RStripChar(s: string, ch: char): (r: string)
    ensures StartsWith(s, r)
    ensures r == [] || r[|r| - 1] != ch
    ensures forall i :: |r| <= i < |s| ==> s[i] == ch
  {
    if |s| > 0 && s[|s| - 1] == ch then RStripChar(s[..|s| - 1], ch) else s
  }

  /**
   * `r` is what lies in `s` from index `i` on, with only `ch` before it and only `ch` after
   * it: `s` is `r` with runs of `ch` added on both sides.
   */
  predicate Between(s: string, ch: char, r: string, i: int)
  {
    && 0 <= i && i + |r| <= |s| && r == s[i..i + |r|]
    && (forall k :: 0 <= k < i ==> s[k] == ch)
    && (forall k :: i + |r| <= k < |s| ==> s[k] == ch)
  }

  /**
   * Python `s.strip(ch)` for one character: the result is what lies between a leading and a
   * trailing run of `ch` in `s`, and it neither starts nor ends with `ch`.
   */
  function StripChar(s: string, ch: char): (r: string)
    ensures r == [] || (r[0] != ch && r[|r| - 1] != ch)
    ensures |r| <= |s|
    ensures exists i :: Between(s, ch, r, i)
  {
    var t := RStripChar(s, ch);
    var r := LStripChar(t, ch);
    StripRuns(s, ch, t, r);
    r
  }

  /** The runs `StripChar` removes, given its two stages. */
  lemma StripRuns(s: string, ch: char, t: string, r: string)
    requires t == RStripChar(s, ch) && r == LStripChar(t, ch)
    ensures Between(s, ch, r, |t| - |r|)
  {
    var i := |t| - |r|;
    assert r == t[i..];
    assert t == s[..|t|];
    assert forall k :: 0 <= k < i ==> s[k] == t[k] == ch;
  }

  /** The index of the first occurrence of `c` in `s`, if any. */
  function IndexOf(s: string, c: char): (r: Option<nat>)
    ensures r.None? <==> c !in s
    ensures r.Some? ==> r.value < |s| && s[r.value] == c && c !in s[..r.value]
  {
    if |s| == 0 then None
    else if s[0] == c then Some(0)
    else
      match IndexOf(s[1..], c)
      case None => None
      case Some(i) =>
        assert s[..i + 1] == [s[0]] + s[1..][..i];
        Some(i + 1)
  }

  /** The last element of a split (Python `parts[-1]`). */
  function LastPart(s: string, c: char): string
  {
    var parts := Split(s, c);
    parts[|parts| - 1]
  }

  /** Whatever comes before it, the text after the last separator is the last part. */
  lemma {:induction false} LastPartAfter(x: string, c: char, v: string)
    requires c !in v
    ensures |Split(x + [c] + v, c)| >= 2
    ensures LastPart(x + [c] + v, c) == v
  {
    var s := x + [c] + v;
    if |x| == 0 {
      SplitCons(x, c, v);
      SplitFree(v, c);
    } else {
      assert s[1..] == x[1..] + [c] + v;
      LastPartAfter(x[1..], c, v);
    }
  }

  lemma {:induction false} JoinEndsWithLast(parts: seq<string>, c: char)
    requires |parts| >= 2
    ensures EndsWith(Join(parts, c), [c] + parts[|parts| - 1])
  {
    var tail := Join(parts[1..], c);
    assert Join(parts, c) == parts[0] + [c] + tail;
    if |parts| == 2 {
      assert tail == parts[1];
    } else {
      JoinEndsWithLast(parts[1..], c);
    }
  }

  /** The last part of a split is free of the separator and ends the string. */
  lemma LastPartSuffix(s: string, c: char)
    ensures c !in LastPart(s, c)
    ensures EndsWith(s, LastPart(s, c))
    ensures LastPart(s, c) == s || EndsWith(s, [c] + LastPart(s, c))
  {
    var parts := Split(s, c);
    SplitPartsFree(s, c);
    JoinSplit(s, c);
    if |parts| >= 2 {
      JoinEndsWithLast(parts, c);
    }
  }

  /** The ASCII lower-case form of a character (JavaScript `toLowerCase` on ASCII). */
  function LowerChar(ch: char): char
  {
    if 'A' <= ch <= 'Z' then (ch as int + 32) as char else ch
  }

  function Lower(s: string): (r: string)
    ensures |r| == |s|
    ensures forall i :: 0 <= i < |s| ==> r[i] == LowerChar(s[i])
  {
    if |s| == 0 then "" else [LowerChar(s[0])] + Lower(s[1..])
  }

  predicate IsDigit(ch: char)
  {
    '0' <= ch <= '9'
  }

  /** The decimal value of a string of digits. */
  function DigitsValue(s: string): nat
    requires forall i :: 0 <= i < |s| ==> IsDigit(s[i])
  {
    if |s| == 0 then 0
    else
      assert IsDigit(s[|s| - 1]);
      DigitsValue(s[..|s| - 1]) * 10 + (s[|s| - 1] as int - '0' as int)
  }

  /** Python `str(n)` for a natural number: its decimal digits, without leading zeros. */
  function NatToString(n: nat): (s: string)
    ensures |s| >= 1
    ensures forall i :: 0 <= i < |s| ==> IsDigit(s[i])
    ensures |s| > 1 ==> s[0] != '0'
  {
    var d := [('0' as int + n % 10) as char];
    if n < 10 then d else NatToString(n / 10) + d
  }

  /** Reading the digits back gives the number. */
  lemma {:induction false} NatToStringValue(n: nat)
    ensures DigitsValue(NatToString(n)) == n
  {
    var s := NatToString(n);
    if n >= 10 {
      NatToStringValue(n / 10);
      assert s[..|s| - 1] == NatToString(n / 10);
    }
  }

  /** Different numbers print differently. */
  lemma NatToStringInjective(m: nat, n: nat)
    requires NatToString(m) == NatToString(n)
    ensures m == n
  {
    NatToStringValue(m);
    NatToStringValue(n);
  }

  /** Python's `<` on strings: lexicographic by code point, a proper prefix first. */
  predicate Less(a: string, b: string)
  {
    if |a| == 0 then |b| > 0
    else if |b| == 0 then false
    else if a[0] != b[0] then a[0] < b[0]
    else Less(a[1..], b[1..])
  }

  lemma {:induction false} LessIrreflexive(a: string)
    ensures !Less(a, a)
  {
    if |a| > 0 {
      LessIrreflexive(a[1..]);
    }
  }

  lemma {:induction false} LessTransitive(a: string, b: string, c: string)
    requires Less(a, b) && Less(b, c)
    ensures Less(a, c)
  {
    if |a| > 0 && |b| > 0 && |c| > 0 && a[0] == b[0] && b[0] == c[0] {
      LessTransitive(a[1..], b[1..], c[1..]);
    }
  }

  lemma {:induction false} LessTotal(a: string, b: string)
    requires a != b
    ensures Less(a, b) || Less(b, a)
  {
    if |a| > 0 && |b| > 0 && a[0] == b[0] {
      assert a == [a[0]] + a[1..] && b == [b[0]] + b[1..];
      LessTotal(a[1..], b[1..]);
    }
  }

  lemma {:induction false} LessAsymmetric(a: string, b: string)
    requires Less(a, b)
    ensures !Less(b, a)
  {
    if |a| > 0 && |b| > 0 && a[0] == b[0] {
      LessAsymmetric(a[1..], b[1..]);
    }
  }
}
