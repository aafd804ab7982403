/** String rendering as JavaScript performs it: number-to-text conversion, `join`, and `split`. */
module Text {
  import opened Wrappers

  predicate IsDigit(c: char) {
    '0' <= c <= '9'
  }

  predicate AllDigits(s: string) {
    forall i :: 0 <= i < |s| ==> IsDigit(s[i])
  }

  function DigitChar(d: nat): (c: char)
    requires d < 10
    ensures IsDigit(c)
  {
    ('0' as int + d) as char
  }

  function DigitValue(c: char): (d: nat)
    requires IsDigit(c)
    ensures d < 10
  {
    c as int - '0' as int
  }

  /** The decimal text of a non-negative integer, as `String(n)` renders it: digits only, no leading zero. */
  function NatToDecimal(n: nat): (r: string)
    ensures |r| > 0 && AllDigits(r)
    ensures r[0] == '0' ==> n == 0 && r == "0"
    decreases n
  {
    if n < 10 then [DigitChar(n)] else NatToDecimal(n / 10) + [DigitChar(n % 10)]
  }

  /** The value of a string of decimal digits (empty reads as zero). */
  function DecimalValue(s: string): nat
    requires AllDigits(s)
  {
    if |s| == 0 then 0 else 10 * DecimalValue(s[..|s| - 1]) + DigitValue(s[|s| - 1])
  }

  /** Reading back the rendered digits gives the number that was rendered. */
  lemma {:induction false} DecimalRoundTrip(n: nat)
    ensures DecimalValue(NatToDecimal(n)) == n
    decreases n
  {
    if n >= 10 {
      DecimalRoundTrip(n / 10);
      var r := NatToDecimal(n);
      assert r[..|r| - 1] == NatToDecimal(n / 10);
    }
  }

  /** `String(i)` for an integer: a minus sign before the digits of its magnitude when negative. */
  function IntToDecimal(i: int): (r: string)
    ensures |r| > 0
    ensures i >= 0 ==> AllDigits(r)
    ensures i < 0 ==> r[0] == '-' && AllDigits(r[1..])
  {
    if i < 0 then "-" + NatToDecimal(-i) else NatToDecimal(i)
  }

  /** Text that `String(n)` can produce: a non-empty run of digits with no leading zero. */
  predicate IsDecimal(s: string) {
    |s| > 0 && AllDigits(s) && (s[0] == '0' ==> |s| == 1)
  }

  /** Reads decimal text, accepting only the spelling `String(n)` produces. */
  function ParseNat(s: string): (r: Option<nat>)
    ensures r.Some? <==> IsDecimal(s)
  {
    if IsDecimal(s) then Some(DecimalValue(s)) else None
  }

  /**
    Reads `String(i)` back: a minus sign before the decimal text of a positive magnitude, or the
    decimal text of a non-negative number ("-0" is not a spelling `String` produces).
   */
  function ParseInt(s: string): Option<int> {
    if |s| > 0 && s[0] == '-' then
      match ParseNat(s[1..])
      case Some(n) => if n == 0 then None else Some(-(n as int))
      case None => None
    else
      match ParseNat(s)
      case Some(n) => Some(n)
      case None => None
  }

  lemma ParseNatRoundTrip(n: nat)
    ensures ParseNat(NatToDecimal(n)) == Some(n)
  {
    DecimalRoundTrip(n);
  }

  /** Every text the decimal reader accepts is the rendering of the number it reads. */
  lemma {:induction false} ParseNatCanonical(s: string)
    requires ParseNat(s).Some?
    ensures s == NatToDecimal(ParseNat(s).value)
    decreases |s|
  {
    var n := DecimalValue(s);
    var last := s[|s| - 1];
    var d := DigitValue(last);
    assert DigitChar(d) == last;
    if |s| > 1 {
      var init := s[..|s| - 1];
      assert IsDecimal(init) by {
        assert init[0] == s[0];
        forall i | 0 <= i < |init| ensures IsDigit(init[i]) { assert init[i] == s[i]; }
      }
      ParseNatCanonical(init);
      var m := DecimalValue(init);
      assert m != 0 by { assert init[0] != '0'; }
      assert n == 10 * m + d;
      assert n / 10 == m && n % 10 == d;
      assert s == init + [last];
    }
  }

  /** Reading and rendering are exact inverses: `s` reads as `n` exactly when `s` is `String(n)`. */
  lemma ParseNatExact(s: string, n: nat)
    ensures ParseNat(s) == Some(n) <==> s == NatToDecimal(n)
  {
    ParseNatRoundTrip(n);
    if ParseNat(s) == Some(n) { ParseNatCanonical(s); }
  }

  lemma ParseIntRoundTrip(i: int)
    ensures ParseInt(IntToDecimal(i)) == Some(i)
  {
    var r := IntToDecimal(i);
    if i < 0 {
      var n: nat := -i;
      assert r == "-" + NatToDecimal(n);
      assert r[1..] == NatToDecimal(n);
      ParseNatRoundTrip(n);
      assert ParseNat(r[1..]) == Some(n) && n != 0;
    } else {
      assert r == NatToDecimal(i);
      assert IsDigit(r[0]);
      ParseNatRoundTrip(i);
    }
  }

  /** Every text the integer reader accepts is the rendering of the integer it reads. */
  lemma ParseIntCanonical(s: string)
    requires ParseInt(s).Some?
    ensures s == IntToDecimal(ParseInt(s).value)
  {
    if |s| > 0 && s[0] == '-' {
      ParseNatCanonical(s[1..]);
      assert s == "-" + s[1..];
    } else {
      ParseNatCanonical(s);
    }
  }

  /** The first index at which `c` occurs in `s`. */
  function IndexOf(s: string, c: char): (r: Option<nat>)
    ensures r.None? <==> c !in s
    ensures r.Some? ==> r.value < |s| && s[r.value] == c && c !in s[..r.value]
  {
    if |s| == 0 then None
    else if s[0] == c then Some(0)
    else
      match IndexOf(s[1..], c)
      case Some(k) =>
        assert s[..k + 1] == [s[0]] + s[1..][..k];
        Some(k + 1)
      case None => None
  }

  /** In `a + [c] + b`, the first `c` is the one right after `a` when `a` has none. */
  lemma IndexOfAfter(a: string, c: char, b: string)
    requires c !in a
    ensures IndexOf(a + [c] + b, c) == Some(|a|)
  {
    var s := a + [c] + b;
    var r := IndexOf(s, c);
    assert s[|a|] == c;
    assert forall i :: 0 <= i < |a| ==> s[i] == a[i];
    assert r.value <= |a| ==> c !in s[..r.value];
    assert forall k :: |a| < k <= |s| ==> s[..k][|a|] == c;
  }

  /** `Array.prototype.join`: the parts with `sep` between consecutive ones. */
  function Join(parts: seq<string>, sep: string): string {
    if |parts| == 0 then ""
    else if |parts| == 1 then parts[0]
    else parts[0] + sep + Join(parts[1..], sep)
  }

  /** Joining two non-empty lists of parts puts one separator between their joins. */
  lemma {:induction false} JoinAppend(a: seq<string>, b: seq<string>, sep: string)
    requires |a| > 0 && |b| > 0
    ensures Join(a + b, sep) == Join(a, sep) + sep + Join(b, sep)
  {
    assert (a + b)[0] == a[0];
    if |a| == 1 {
      assert (a + b)[1..] == b;
    } else {
      assert (a + b)[1..] == a[1..] + b;
      JoinAppend(a[1..], b, sep);
    }
  }

  /**
    `String.prototype.split` on a non-empty separator: the pieces between the leftmost
    non-overlapping occurrences of `sep`. A string without `sep` splits into itself.
   */
  function Split(s: string, sep: string): (r: seq<string>)
    requires |sep| > 0
    ensures |r| > 0
    decreases |s|
  {
    if |s| < |sep| then [s]
    else if s[..|sep|] == sep then [""] + Split(s[|sep|..], sep)
    else
      var rest := Split(s[1..], sep);
      [[s[0]] + rest[0]] + rest[1..]
  }

  /** A part free of the separator's first character splits into itself. */
  lemma {:induction false} SplitWhole(e: string, sep: string)
    requires |sep| > 0 && sep[0] !in e
    ensures Split(e, sep) == [e]
    decreases |e|
  {
    if |e| >= |sep| {
      assert e[..|sep|][0] == e[0];
      assert e[1..] + [] == e[1..];
      SplitWhole(e[1..], sep);
      assert [e[0]] + e[1..] == e;
    }
  }

  /** The first separator after a part free of the separator's first character ends that part. */
  lemma {:induction false} SplitAtFirst(e: string, sep: string, t: string)
    requires |sep| > 0 && sep[0] !in e
    ensures Split(e + sep + t, sep) == [e] + Split(t, sep)
    decreases |e|
  {
    var s := e + sep + t;
    if |e| == 0 {
      assert s == sep + t;
      assert s[..|sep|] == sep;
      assert s[|sep|..] == t;
    } else {
      assert s[..|sep|][0] == e[0];
      assert s[1..] == e[1..] + sep + t;
      SplitAtFirst(e[1..], sep, t);
      assert [e[0]] + e[1..] == e;
    }
  }

  /** Splitting a join recovers the parts when no part contains the separator's first character. */
  lemma {:induction false} SplitJoin(parts: seq<string>, sep: string)
    requires |parts| > 0 && |sep| > 0
    requires forall i :: 0 <= i < |parts| ==> sep[0] !in parts[i]
    ensures Split(Join(parts, sep), sep) == parts
  {
    if |parts| == 1 {
      SplitWhole(parts[0], sep);
    } else {
      SplitJoin(parts[1..], sep);
      SplitAtFirst(parts[0], sep, Join(parts[1..], sep));
      assert [parts[0]] + parts[1..] == parts;
    }
  }

  /** The last index at which `c` occurs in `s`. */
  function LastIndexOf(s: string, c: char): (r: Option<nat>)
    ensures r.None? <==> c !in s
    ensures r.Some? ==> r.value < |s| && s[r.value] == c && c !in s[r.value + 1..]
  {
    if |s| == 0 then None
    else if s[|s| - 1] == c then Some(|s| - 1)
    else
      var init := s[..|s| - 1];
      assert s == init + [s[|s| - 1]];
      match LastIndexOf(init, c)
      case Some(k) =>
        assert s[k + 1..] == init[k + 1..] + [s[|s| - 1]];
        Some(k)
      case None => None
  }

  /** In `a + [c] + b`, the last `c` is the one right after `a` when `b` has none. */
  lemma {:induction false} LastIndexOfBefore(a: string, c: char, b: string)
    requires c !in b
    ensures LastIndexOf(a + [c] + b, c) == Some(|a|)
  {
    var s := a + [c] + b;
    if |b| > 0 {
      var init := b[..|b| - 1];
      assert b[|b| - 1] in b;
      assert s[..|s| - 1] == a + [c] + init;
      assert c !in init by {
        forall i | 0 <= i < |init| ensures init[i] != c { assert init[i] == b[i]; }
      }
      LastIndexOfBefore(a, c, init);
    }
  }

  /** The length of the longest run of digits at the end of `s`. */
  function TrailingDigits(s: string): (n: nat)
    ensures n <= |s|
    ensures AllDigits(s[|s| - n..])
  {
    if |s| == 0 || !IsDigit(s[|s| - 1]) then 0
    else
      var init := s[..|s| - 1];
      var n := TrailingDigits(init);
      assert s[|s| - (n + 1)..] == init[|init| - n..] + [s[|s| - 1]];
      n + 1
  }

  /** A run of digits after a non-digit (or at the start) is exactly the trailing run. */
  lemma {:induction false} TrailingDigitsAfter(a: string, t: string)
    requires AllDigits(t)
    requires |a| == 0 || !IsDigit(a[|a| - 1])
    ensures TrailingDigits(a + t) == |t|
  {
    if |t| == 0 {
      assert a + t == a;
    } else {
      var init := t[..|t| - 1];
      assert (a + t)[..|a + t| - 1] == a + init;
      TrailingDigitsAfter(a, init);
    }
  }
}
