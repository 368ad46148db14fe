/** The few Python string operations the dashboards and the API client rely on:
    substring test (`t in s`), `str.lower()`, `str.replace(pat, "")`,
    `str.split(sep)`, `int(s)` and `f"{n}"`. */
module PyText {
  import opened Wrappers

  // ---------------------------------------------------------------------------
  // Substring test
  // ---------------------------------------------------------------------------

  /** `t` occurs in `s` starting at index `i`. */
  predicate OccursAt(s: string, t: string, i: int) {
    0 <= i <= |s| - |t| && s[i..i + |t|] == t
  }

  /** Python's `t in s` on strings: `t` occurs somewhere in `s`. */
  predicate Contains(s: string, t: string) {
    exists i | 0 <= i <= |s| - |t| :: OccursAt(s, t, i)
  }

  /** Text around an occurrence never hides it. */
  lemma ContainsExtend(x: string, s: string, y: string, t: string)
    requires Contains(s, t)
    ensures Contains(x + s + y, t)
  {
    var i :| 0 <= i <= |s| - |t| && OccursAt(s, t, i);
    var w := x + s + y;
    assert w[|x| + i..|x| + i + |t|] == s[i..i + |t|];
    assert OccursAt(w, t, |x| + i);
  }

  // ---------------------------------------------------------------------------
  // str.lower()
  // ---------------------------------------------------------------------------

  /** Lower-cases ASCII letters; every other character is kept. */
  function LowerChar(c: char): (r: char)
    ensures 'A' <= c <= 'Z' ==> 'a' <= r <= 'z' && r as int - c as int == 32
    ensures !('A' <= c <= 'Z') ==> r == c
  {
    if 'A' <= c <= 'Z' then (c as int + 32) as char else c
  }

  function Lower(s: string): (r: string)
    ensures |r| == |s|
    ensures forall i :: 0 <= i < |s| ==> r[i] == LowerChar(s[i])
  {
    seq(|s|, i requires 0 <= i < |s| => LowerChar(s[i]))
  }

  /** Lower-casing is idempotent and works piece by piece. */
  lemma LowerLaws(a: string, b: string)
    ensures Lower(Lower(a)) == Lower(a)
    ensures Lower(a + b) == Lower(a) + Lower(b)
  {
  }

  // ---------------------------------------------------------------------------
  // str.replace(pat, "")
  // ---------------------------------------------------------------------------

  /** Python's `s.replace(pat, "")`: one left-to-right pass that deletes the
      non-overlapping occurrences of `pat`. The source only calls it with
      non-empty patterns. */
  function RemoveAll(s: string, pat: string): (r: string)
    requires |pat| > 0
    ensures |r| <= |s|
    ensures forall c :: c in r ==> c in s
    decreases |s|
  {
    if |s| < |pat| then s
    else if s[..|pat|] == pat then RemoveAll(s[|pat|..], pat)
    else [s[0]] + RemoveAll(s[1..], pat)
  }

  /** A string without the pattern comes back unchanged. */
  lemma {:induction false} RemoveAllAbsent(s: string, pat: string)
    requires |pat| > 0
    requires !Contains(s, pat)
    ensures RemoveAll(s, pat) == s
    decreases |s|
  {
    if |s| >= |pat| {
      assert s[0..0 + |pat|] == s[..|pat|];
      assert !OccursAt(s, pat, 0);
      var t := s[1..];
      if Contains(t, pat) {
        var i :| 0 <= i <= |t| - |pat| && OccursAt(t, pat, i);
        assert s[i + 1..i + 1 + |pat|] == t[i..i + |pat|];
        assert OccursAt(s, pat, i + 1);
        assert false;
      }
      RemoveAllAbsent(t, pat);
      assert [s[0]] + t == s;
    }
  }

  /** A string with an occurrence of the pattern gets strictly shorter. */
  lemma {:induction false} RemoveAllShrinks(s: string, pat: string)
    requires |pat| > 0
    requires Contains(s, pat)
    ensures |RemoveAll(s, pat)| < |s|
    decreases |s|
  {
    var i :| 0 <= i <= |s| - |pat| && OccursAt(s, pat, i);
    if s[..|pat|] != pat {
      assert i != 0;
      var t := s[1..];
      assert t[i - 1..i - 1 + |pat|] == s[i..i + |pat|];
      assert OccursAt(t, pat, i - 1);
      RemoveAllShrinks(t, pat);
    }
  }

  /** A one-character pattern occurs exactly where that character does. */
  lemma ContainsChar(s: string, c: char)
    ensures Contains(s, [c]) <==> c in s
  {
    if c in s {
      var i :| 0 <= i < |s| && s[i] == c;
      assert s[i..i + 1] == [c];
      assert OccursAt(s, [c], i);
    }
    if Contains(s, [c]) {
      var i :| 0 <= i <= |s| - 1 && OccursAt(s, [c], i);
      assert s[i..i + 1][0] == s[i];
    }
  }

  /** Deleting a leading occurrence, then a text without the pattern. */
  lemma RemoveAllLeading(pat: string, t: string)
    requires |pat| > 0 && !Contains(t, pat)
    ensures RemoveAll(pat + t, pat) == t
  {
    assert (pat + t)[..|pat|] == pat;
    assert (pat + t)[|pat|..] == t;
    RemoveAllAbsent(t, pat);
  }

  // ---------------------------------------------------------------------------
  // str.split(sep) with a one-character separator, and its inverse "sep".join
  // ---------------------------------------------------------------------------

  function CountChar(s: string, c: char): nat {
    if |s| == 0 then 0 else (if s[0] == c then 1 else 0) + CountChar(s[1..], c)
  }

  lemma {:induction false} CountCharAbsent(s: string, c: char)
    requires c !in s
    ensures CountChar(s, c) == 0
  {
    if |s| > 0 {
      CountCharAbsent(s[1..], c);
    }
  }

  /** Python's `s.split(sep)`: one more part than there are separators, and no
      part holds the separator. */
  function Split(s: string, sep: char): (parts: seq<string>)
    ensures |parts| == CountChar(s, sep) + 1
    ensures forall k :: 0 <= k < |parts| ==> sep !in parts[k]
  {
    if |s| == 0 then [""]
    else
      var rest := Split(s[1..], sep);
      if s[0] == sep then [""] + rest
      else [[s[0]] + rest[0]] + rest[1..]
  }

  /** Python's `sep.join(parts)`. */
  function Join(parts: seq<string>, sep: char): string
    requires |parts| >= 1
  {
    if |parts| == 1 then parts[0] else parts[0] + [sep] + Join(parts[1..], sep)
  }

  /** Joining the parts of a split gives back the original text. */
  lemma {:induction false} JoinSplit(s: string, sep: char)
    ensures Join(Split(s, sep), sep) == s
  {
    if |s| > 0 {
      var rest := Split(s[1..], sep);
      JoinSplit(s[1..], sep);
      if s[0] == sep {
        assert Split(s, sep) == [""] + rest;
        assert ([""] + rest)[1..] == rest;
      } else {
        var parts := Split(s, sep);
        assert parts == [[s[0]] + rest[0]] + rest[1..];
        if |rest| == 1 {
          assert Join(parts, sep) == [s[0]] + rest[0];
        } else {
          assert parts[1..] == rest[1..];
          assert Join(rest, sep) == rest[0] + [sep] + Join(rest[1..], sep);
        }
        assert [s[0]] + s[1..] == s;
      }
    }
  }

  /** A text without the separator is a single part. */
  lemma {:induction false} SplitNoSep(s: string, sep: char)
    requires sep !in s
    ensures Split(s, sep) == [s]
  {
    if |s| > 0 {
      SplitNoSep(s[1..], sep);
      assert [s[0]] + s[1..] == s;
    }
  }

  /** Splitting at the first separator peels off the text before it. */
  lemma {:induction false} SplitAtFirst(a: string, b: string, sep: char)
    requires sep !in a
    ensures Split(a + [sep] + b, sep) == [a] + Split(b, sep)
  {
    var s := a + [sep] + b;
    if |a| == 0 {
      assert s[1..] == b;
    } else {
      assert s[1..] == a[1..] + [sep] + b;
      SplitAtFirst(a[1..], b, sep);
      assert [a[0]] + a[1..] == a;
    }
  }

  /** Splitting a join of separator-free parts gives the parts back. */
  lemma {:induction false} SplitJoin(parts: seq<string>, sep: char)
    requires |parts| >= 1
    requires forall k :: 0 <= k < |parts| ==> sep !in parts[k]
    ensures Split(Join(parts, sep), sep) == parts
  {
    if |parts| == 1 {
      SplitNoSep(parts[0], sep);
    } else {
      SplitJoin(parts[1..], sep);
      SplitAtFirst(parts[0], Join(parts[1..], sep), sep);
      assert [parts[0]] + parts[1..] == parts;
    }
  }

  // ---------------------------------------------------------------------------
  // int(s) and f"{n}"
  // ---------------------------------------------------------------------------

  predicate IsDigit(c: char) { '0' <= c <= '9' }

  predicate AllDigits(s: string) { forall i :: 0 <= i < |s| ==> IsDigit(s[i]) }

  /** The value of a string of decimal digits. */
  function DigitsValue(s: string): nat
    requires AllDigits(s)
  {
    if |s| == 0 then 0 else 10 * DigitsValue(s[..|s| - 1]) + (s[|s| - 1] as int - '0' as int)
  }

  /** Python's `int(s)` for base 10: an optional sign followed by at least one
      digit; anything else raises, modelled as a `Failure` carrying the text. */
  function ParseInt(s: string): (r: Result<int, string>)
    ensures r.Failure? ==> r.error == s
    ensures r.Success? <==>
              |s| > 0 && (IsDigit(s[0]) || ((s[0] == '+' || s[0] == '-') && |s| > 1)) &&
              forall i :: 1 <= i < |s| ==> IsDigit(s[i])
    ensures r.Success? && IsDigit(s[0]) ==> r.value >= 0
    ensures r.Success? && s[0] == '+' ==> r.value >= 0
    ensures r.Success? && s[0] == '-' ==> r.value <= 0
  {
    if |s| > 0 && (s[0] == '+' || s[0] == '-') then
      var digits := s[1..];
      if |digits| > 0 && AllDigits(digits) then
        var v: int := DigitsValue(digits);
        Success(if s[0] == '-' then -v else v)
      else Failure(s)
    else if |s| > 0 && AllDigits(s) then Success(DigitsValue(s))
    else Failure(s)
  }

  function DigitChar(d: nat): (c: char)
    requires d < 10
    ensures IsDigit(c) && c as int - '0' as int == d
  {
    ('0' as int + d) as char
  }

  /** Decimal rendering of a natural number, as `f"{n}"` prints it. */
  function NatToString(n: nat): (s: string)
    ensures |s| > 0 && AllDigits(s)
  {
    if n < 10 then [DigitChar(n)] else NatToString(n / 10) + [DigitChar(n % 10)]
  }

  lemma {:induction false} NatToStringValue(n: nat)
    ensures DigitsValue(NatToString(n)) == n
  {
    if n >= 10 {
      NatToStringValue(n / 10);
      var s := NatToString(n);
      assert s[..|s| - 1] == NatToString(n / 10);
    }
  }

  /** Decimal rendering of an integer, with a leading `-` when negative. */
  function IntToString(i: int): (s: string)
    ensures |s| > 0
  {
    if i < 0 then "-" + NatToString(-i) else NatToString(i)
  }

  /** `int(f"{n}") == n`, and also with an explicit `+` sign. */
  lemma ParseIntRoundTrip(n: int)
    ensures ParseInt(IntToString(n)) == Success(n)
    ensures n >= 0 ==> ParseInt("+" + IntToString(n)) == Success(n)
  {
    if n < 0 {
      NatToStringValue(-n);
      ParseSigned('-', NatToString(-n));
    } else {
      NatToStringValue(n);
      ParseUnsigned(NatToString(n));
      ParseSigned('+', NatToString(n));
    }
  }

  lemma ParseUnsigned(digits: string)
    requires |digits| > 0 && AllDigits(digits)
    ensures ParseInt(digits) == Success(DigitsValue(digits))
  {
  }

  lemma ParseSigned(sign: char, digits: string)
    requires sign == '+' || sign == '-'
    requires |digits| > 0 && AllDigits(digits)
    ensures ParseInt([sign] + digits) == Success(if sign == '-' then -(DigitsValue(digits) as int) else DigitsValue(digits))
  {
    assert ([sign] + digits)[1..] == digits;
  }

  /** Neither a sign nor a digit string ever holds the characters used as
      separators in band labels. */
  lemma NatToStringPlain(n: nat)
    ensures 'P' !in NatToString(n) && '-' !in NatToString(n)
  {
    var s := NatToString(n);
    assert forall i :: 0 <= i < |s| ==> IsDigit(s[i]);
  }
}
