/**
 * Text helpers with the semantics of the Python and JavaScript built-ins the
 * source relies on: `str(int)`, `str.split(sep)`, `str.strip()` and
 * `str.lower()` (on ASCII letters).
 */
module Text {

  function Digit(d: nat): (c: char)
    requires d < 10
    ensures '0' <= c <= '9'
  {
    (48 + d) as char
  }

  /** Decimal rendering of a natural number, as Python's `str(n)`. */
  function NatToString(n: nat): (s: string)
    ensures |s| >= 1
    ensures forall i :: 0 <= i < |s| ==> '0' <= s[i] <= '9'
    ensures (n < 10) == (|s| == 1)
    decreases n
  {
    if n < 10 then [Digit(n)] else NatToString(n / 10) + [Digit(n % 10)]
  }

  /** Distinct numbers have distinct renderings. */
  lemma {:induction false} NatToStringInjective(a: nat, b: nat)
    requires NatToString(a) == NatToString(b)
    ensures a == b
  {
    if a >= 10 && b >= 10 {
      var sa, sb := NatToString(a), NatToString(b);
      assert sa[|sa| - 1] == sb[|sb| - 1];
      assert Digit(a % 10) == Digit(b % 10);
      assert NatToString(a / 10) == sa[..|sa| - 1] == sb[..|sb| - 1] == NatToString(b / 10);
      NatToStringInjective(a / 10, b / 10);
    } else if a < 10 && b < 10 {
      assert NatToString(a)[0] == NatToString(b)[0];
    }
  }

  /** Decimal rendering of an integer, as Python's `str(i)`. */
  function IntToString(i: int): string
  {
    if i < 0 then "-" + NatToString(-i) else NatToString(i)
  }

  /** Python's `s.split(sep)` for a one-character separator. */
  function Split(s: string, sep: char): (parts: seq<string>)
    ensures |parts| >= 1
    ensures forall i :: 0 <= i < |parts| ==> sep !in parts[i]
    ensures sep !in s ==> parts == [s]
    ensures sep in s ==> |parts| >= 2
    decreases |s|
  {
    if |s| == 0 then [""]
    else
      var rest := Split(s[1..], sep);
      assert s == [s[0]] + s[1..];
      if s[0] == sep then [""] + rest else [[s[0]] + rest[0]] + rest[1..]
  }

  /** `sep.join(parts)`. */
  function Join(parts: seq<string>, sep: string): string
    decreases |parts|
  {
    if |parts| == 0 then ""
    else if |parts| == 1 then parts[0]
    else parts[0] + sep + Join(parts[1..], sep)
  }

  /** Splitting loses nothing: joining the parts back gives the original text. */
  lemma {:induction false} SplitJoin(s: string, sep: char)
    ensures Join(Split(s, sep), [sep]) == s
    decreases |s|
  {
    if |s| > 0 {
      var rest := Split(s[1..], sep);
      SplitJoin(s[1..], sep);
      if s[0] == sep {
        assert Split(s, sep) == [""] + rest;
        assert s == [s[0]] + s[1..];
      } else {
        var parts := Split(s, sep);
        assert parts == [[s[0]] + rest[0]] + rest[1..];
        if |rest| == 1 {
          assert Join(parts, [sep]) == [s[0]] + rest[0];
        } else {
          assert parts[1..] == rest[1..];
          assert Join(rest, [sep]) == rest[0] + [sep] + Join(rest[1..], [sep]);
        }
        assert s == [s[0]] + s[1..];
      }
    }
  }

  /** The last part of `Split(s, sep)`, Python's `s.split(sep)[-1]`. */
  function LastPart(s: string, sep: char): string
  {
    var parts := Split(s, sep);
    parts[|parts| - 1]
  }

  /**
   * The last part is the text after the last separator: it holds no
   * separator, it ends `s`, and it is `s` itself exactly when `s` holds no
   * separator (otherwise a separator stands right before it).
   */
  lemma {:induction false} LastPartIsSuffix(s: string, sep: char)
    ensures var t := LastPart(s, sep);
      && sep !in t
      && |t| <= |s| && s[|s| - |t|..] == t
      && (sep !in s ==> t == s)
      && (sep in s ==> |t| < |s| && s[|s| - |t| - 1] == sep)
    decreases |s|
  {
    if |s| > 0 {
      var tail := s[1..];
      assert s == [s[0]] + tail;
      LastPartIsSuffix(tail, sep);
      var rest := Split(tail, sep);
      var t := LastPart(s, sep);
      if s[0] == sep {
        assert Split(s, sep) == [""] + rest;
        assert t == LastPart(tail, sep);
        assert s[|s| - |t|..] == tail[|tail| - |t|..];
        if sep in tail {
          assert s[|s| - |t| - 1] == tail[|tail| - |t| - 1];
        }
      } else if sep !in tail {
        assert sep !in s;
        assert rest == [tail];
        assert t == s;
      } else {
        assert Split(s, sep) == [[s[0]] + rest[0]] + rest[1..];
        assert t == LastPart(tail, sep);
        assert s[|s| - |t|..] == tail[|tail| - |t|..];
        assert s[|s| - |t| - 1] == tail[|tail| - |t| - 1];
      }
    }
  }

  /** Conversely, the text after a separator that has none after it is the last part. */
  lemma LastPartAfterLast(s: string, sep: char, k: nat)
    requires k < |s| && s[k] == sep && sep !in s[k + 1..]
    ensures LastPart(s, sep) == s[k + 1..]
  {
    LastPartIsSuffix(s, sep);
  }

  /** The characters Python's `str.isspace()` accepts among the ASCII range. */
  predicate IsSpace(c: char)
  {
    c == ' ' || '\t' <= c <= '\r' || '\U{1c}' <= c <= '\U{1f}'
  }

  /** How many white-space characters `s` starts with. */
  function LeadingSpaces(s: string): (n: nat)
    ensures n <= |s|
    ensures forall i :: 0 <= i < n ==> IsSpace(s[i])
    ensures n < |s| ==> !IsSpace(s[n])
    decreases |s|
  {
    if |s| > 0 && IsSpace(s[0]) then
      var tail := s[1..];
      var k := LeadingSpaces(tail);
      assert forall i :: 1 <= i <= k ==> s[i] == tail[i - 1];
      1 + k
    else 0
  }

  /** How many white-space characters `s` ends with. */
  function TrailingSpaces(s: string): (n: nat)
    ensures n <= |s|
    ensures forall i :: |s| - n <= i < |s| ==> IsSpace(s[i])
    ensures n < |s| ==> !IsSpace(s[|s| - n - 1])
    decreases |s|
  {
    if |s| > 0 && IsSpace(s[|s| - 1]) then
      var init := s[..|s| - 1];
      var k := TrailingSpaces(init);
      assert forall i :: |init| - k <= i < |init| ==> s[i] == init[i];
      1 + k
    else 0
  }

  /** Python's `s.strip()`: drop leading and trailing white space. */
  function Strip(s: string): (t: string)
  {
    var lo := LeadingSpaces(s);
    s[lo..|s| - TrailingSpaces(s[lo..])]
  }

  /**
   * What `Strip` keeps is the stretch of `s` after its leading white space,
   * it neither starts nor ends with white space, and everything it drops is
   * white space.
   */
  lemma StripSpec(s: string)
    ensures var t, lo := Strip(s), LeadingSpaces(s);
      && lo + |t| <= |s| && s[lo..lo + |t|] == t
      && (t == [] || (!IsSpace(t[0]) && !IsSpace(t[|t| - 1])))
      && (forall i :: 0 <= i < lo ==> IsSpace(s[i]))
      && (forall i :: lo + |t| <= i < |s| ==> IsSpace(s[i]))
  {
    var lo := LeadingSpaces(s);
    var rest := s[lo..];
    var k := TrailingSpaces(rest);
    var t := Strip(s);
    assert t == rest[..|rest| - k];
    forall i | lo + |t| <= i < |s| ensures IsSpace(s[i]) {
      assert s[i] == rest[i - lo];
    }
    if t != [] {
      assert t[0] == s[lo];
      assert t[|t| - 1] == rest[|rest| - k - 1];
    }
  }

  /** A string that neither starts nor ends with white space is its own strip. */
  lemma StripUnpadded(s: string)
    requires s == [] || (!IsSpace(s[0]) && !IsSpace(s[|s| - 1]))
    ensures Strip(s) == s
  {
    assert LeadingSpaces(s) == 0;
    assert s[0..] == s;
    assert TrailingSpaces(s) == 0;
  }

  /** `Strip` of a stripped text changes nothing. */
  lemma StripIdempotent(s: string)
    ensures Strip(Strip(s)) == Strip(s)
  {
    var t := Strip(s);
    StripSpec(s);
    if t != [] {
      assert LeadingSpaces(t) == 0;
      assert TrailingSpaces(t) == 0;
      assert t[0..] == t;
    }
  }

  /** Python's `str.lower()` on one character (ASCII letters only). */
  function LowerChar(c: char): char
  {
    if 'A' <= c <= 'Z' then (c as int + 32) as char else c
  }

  function Lower(s: string): (t: string)
    ensures |t| == |s|
    ensures forall i :: 0 <= i < |s| ==> t[i] == LowerChar(s[i])
  {
    seq(|s|, i requires 0 <= i < |s| => LowerChar(s[i]))
  }
}
