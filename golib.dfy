/**
 * The few pieces of Go's standard library the server relies on, written out
 * as small functions: strings.Split on "\r\n", strings.ToUpper (ASCII letters
 * only), the decimal formatting of a length by fmt's %d, strconv.Atoi, and the
 * 64-bit wrap-around of int64 (time.Duration) multiplication.
 *
 * A Go string is a sequence of bytes; here each char stands for one byte.
 */
module GoLib {

  const CRLF: string := "\r\n"

  const MinInt64: int := -0x8000_0000_0000_0000
  const MaxInt64: int := 0x7fff_ffff_ffff_ffff
  const TwoTo64: int := 0x1_0000_0000_0000_0000

  /** Go's int on a 64-bit platform, and time.Duration. */
  type Int64 = x: int | MinInt64 <= x <= MaxInt64

  /** The two's-complement wrap-around of an int64 result. */
  function Wrap64(x: int): (r: Int64)
    ensures MinInt64 <= x <= MaxInt64 ==> r == x
    ensures (x - r) % TwoTo64 == 0
  {
    (x - MinInt64) % TwoTo64 + MinInt64
  }

  // ---------------------------------------------------------------------------
  // strings.Split(s, "\r\n")

  predicate StartsWithCRLF(s: string) {
    |s| >= 2 && s[0] == '\r' && s[1] == '\n'
  }

  /** No "\r\n" occurs anywhere in s. */
  predicate NoCRLF(s: string)
    decreases |s|
  {
    |s| < 2 || (!StartsWithCRLF(s) && NoCRLF(s[1..]))
  }

  /**
   * The pieces of s between the occurrences of "\r\n", found left to right.
   * Like strings.Split there is always at least one piece, the empty string
   * gives [""], and a trailing "\r\n" gives a trailing empty piece.
   */
  function SplitCRLF(s: string): (lines: seq<string>)
    ensures |lines| >= 1
    ensures lines[0] <= s
    decreases |s|
  {
    if |s| == 0 then [""]
    else if StartsWithCRLF(s) then [""] + SplitCRLF(s[2..])
    else
      var rest := SplitCRLF(s[1..]);
      [[s[0]] + rest[0]] + rest[1..]
  }

  /** strings.Join(lines, "\r\n"): the inverse of SplitCRLF. */
  function JoinCRLF(lines: seq<string>): string
    requires |lines| >= 1
  {
    if |lines| == 1 then lines[0] else lines[0] + CRLF + JoinCRLF(lines[1..])
  }

  /** Joining the pieces back together gives the original string. */
  lemma {:induction false} JoinSplit(s: string)
    ensures JoinCRLF(SplitCRLF(s)) == s
    decreases |s|
  {
    if |s| == 0 {
    } else if StartsWithCRLF(s) {
      JoinSplit(s[2..]);
      assert s == [] + CRLF + s[2..];
    } else {
      JoinSplit(s[1..]);
      var rest := SplitCRLF(s[1..]);
      if |rest| == 1 {
        assert s == [s[0]] + s[1..];
      } else {
        assert JoinCRLF(rest) == rest[0] + CRLF + JoinCRLF(rest[1..]);
        assert s == [s[0]] + s[1..];
      }
    }
  }

  /** No piece produced by SplitCRLF contains the separator. */
  lemma {:induction false} SplitPiecesHaveNoCRLF(s: string)
    ensures forall k :: 0 <= k < |SplitCRLF(s)| ==> NoCRLF(SplitCRLF(s)[k])
    decreases |s|
  {
    if |s| == 0 {
    } else if StartsWithCRLF(s) {
      SplitPiecesHaveNoCRLF(s[2..]);
    } else {
      SplitPiecesHaveNoCRLF(s[1..]);
      var rest := SplitCRLF(s[1..]);
      var first := [s[0]] + rest[0];
      assert first[1..] == rest[0];
      if |rest[0]| > 0 {
        assert rest[0][0] == s[1];
      } else if |s| >= 2 {
        // rest[0] is empty, so s[1..] starts a new piece: s[1..] is empty or
        // starts with the separator, and in both cases s[0] and s[1] are not
        // "\r\n" because s itself does not start with it.
      }
      assert NoCRLF(first);
    }
  }

  /** A piece free of the separator, followed by the separator, splits off whole. */
  lemma {:induction false} SplitAfterLine(x: string, rest: string)
    requires NoCRLF(x)
    ensures SplitCRLF(x + CRLF + rest) == [x] + SplitCRLF(rest)
    decreases |x|
  {
    if |x| == 0 {
      assert x + CRLF + rest == CRLF + rest;
      assert (CRLF + rest)[2..] == rest;
    } else {
      var s := x + CRLF + rest;
      assert s[1..] == x[1..] + CRLF + rest;
      assert !StartsWithCRLF(s) by {
        if |x| >= 2 {
          assert s[0] == x[0] && s[1] == x[1];
        } else {
          assert s[1] == '\r';
        }
      }
      SplitAfterLine(x[1..], rest);
      assert [x[0]] + x[1..] == x;
    }
  }

  /** A string free of the separator is a single piece. */
  lemma {:induction false} SplitSingleLine(x: string)
    requires NoCRLF(x)
    ensures SplitCRLF(x) == [x]
    decreases |x|
  {
    if |x| > 0 {
      assert !StartsWithCRLF(x);
      SplitSingleLine(x[1..]);
      assert [x[0]] + x[1..] == x;
    }
  }

  /** Two separator-free lines, each ended by the separator, split into those lines and a trailing empty one. */
  lemma SplitTwoLines(first: string, second: string)
    requires NoCRLF(first) && NoCRLF(second)
    ensures SplitCRLF(first + CRLF + second + CRLF) == [first, second, ""]
  {
    assert first + CRLF + second + CRLF == first + CRLF + (second + CRLF + "");
    SplitAfterLine(first, second + CRLF + "");
    SplitAfterLine(second, "");
  }

  /** Splitting undoes joining, for pieces free of the separator. */
  lemma {:induction false} SplitJoin(lines: seq<string>)
    requires |lines| >= 1
    requires forall k :: 0 <= k < |lines| ==> NoCRLF(lines[k])
    ensures SplitCRLF(JoinCRLF(lines)) == lines
    decreases |lines|
  {
    if |lines| == 1 {
      SplitSingleLine(lines[0]);
    } else {
      SplitJoin(lines[1..]);
      SplitAfterLine(lines[0], JoinCRLF(lines[1..]));
    }
  }

  /** The empty string and strings opening with "\r\n" are exactly those whose first piece is empty. */
  lemma FirstPieceEmpty(s: string)
    ensures |SplitCRLF(s)[0]| == 0 <==> |s| == 0 || StartsWithCRLF(s)
  {
    if |s| > 0 && !StartsWithCRLF(s) {
      assert SplitCRLF(s)[0][0] == s[0];
    }
  }

  // ---------------------------------------------------------------------------
  // strings.ToUpper, for ASCII letters

  function UpperChar(c: char): char {
    if 'a' <= c <= 'z' then (c as int - 32) as char else c
  }

  function ToUpper(s: string): (r: string)
    ensures |r| == |s|
    ensures forall i :: 0 <= i < |s| ==> r[i] == UpperChar(s[i])
  {
    seq(|s|, i requires 0 <= i < |s| => UpperChar(s[i]))
  }

  // ---------------------------------------------------------------------------
  // Decimal digits: fmt's %d for a length, and strconv.Atoi

  predicate IsDigit(c: char) {
    '0' <= c <= '9'
  }

  predicate AllDigits(s: string) {
    forall i :: 0 <= i < |s| ==> IsDigit(s[i])
  }

  function DigitChar(d: nat): (c: char)
    requires d < 10
    ensures IsDigit(c) && c as int - '0' as int == d
  {
    ('0' as int + d) as char
  }

  /** The decimal value of a string of digits, most significant first. */
  function DigitsValue(s: string): nat
    requires AllDigits(s)
  {
    if |s| == 0 then 0
    else DigitsValue(s[..|s| - 1]) * 10 + (s[|s| - 1] as int - '0' as int)
  }

  /** fmt.Sprintf("%d", n) for a non-negative n: its decimal digits, without leading zeros. */
  function Itoa(n: nat): (r: string)
    ensures |r| >= 1 && AllDigits(r)
    ensures DigitsValue(r) == n
    ensures r[0] == '0' <==> n == 0
    ensures |r| > 1 ==> r[0] != '0'
    decreases n
  {
    if n < 10 then [DigitChar(n)]
    else
      var r := Itoa(n / 10) + [DigitChar(n % 10)];
      assert r[..|r| - 1] == Itoa(n / 10);
      r
  }

  const MaxUint64: int := 0xffff_ffff_ffff_ffff

  /** What strconv.ParseUint(s, 10, 64) reports. */
  datatype UintParse = Parsed(value: nat) | RangeError | SyntaxError

  /**
   * The digit loop of strconv.ParseUint in base 10, once s[..j] has been
   * read. It stops with a syntax error at the first non-digit, and with a
   * range error as soon as the value read so far passes 2^64 - 1, without
   * looking at the rest of s.
   */
  function ScanDigits(s: string, j: nat): UintParse
    requires j <= |s| && AllDigits(s[..j]) && DigitsValue(s[..j]) <= MaxUint64
    decreases |s| - j
  {
    if j == |s| then Parsed(DigitsValue(s[..j]))
    else if !IsDigit(s[j]) then SyntaxError
    else
      assert AllDigits(s[..j + 1]) by {
        assert forall i :: 0 <= i < j ==> s[..j + 1][i] == s[..j][i];
      }
      if DigitsValue(s[..j + 1]) > MaxUint64 then RangeError
      else ScanDigits(s, j + 1)
  }

  /** strconv.ParseUint(s, 10, 64): the empty string is a syntax error. */
  function ParseUint(s: string): UintParse {
    if |s| == 0 then SyntaxError
    else
      assert s[..0] == [];
      ScanDigits(s, 0)
  }

  /** A prefix of a string of digits is worth no more than the whole string. */
  lemma {:induction false} PrefixValueBound(u: string, i: nat)
    requires AllDigits(u) && i <= |u|
    ensures AllDigits(u[..i]) && DigitsValue(u[..i]) <= DigitsValue(u)
    decreases |u|
  {
    if i < |u| {
      var u' := u[..|u| - 1];
      assert u'[..i] == u[..i];
      PrefixValueBound(u', i);
    } else {
      assert u[..i] == u;
    }
  }

  /**
   * The digit loop from position i, when s[..j] is all digits: a value past
   * 2^64 - 1 by position j is a range error; otherwise a non-digit at j is a
   * syntax error, and reaching the end gives the value.
   */
  lemma {:induction false} ScanFrom(s: string, i: nat, j: nat)
    requires i <= j <= |s| && AllDigits(s[..j])
    requires AllDigits(s[..i]) && DigitsValue(s[..i]) <= MaxUint64
    ensures DigitsValue(s[..j]) > MaxUint64 ==> ScanDigits(s, i) == RangeError
    ensures DigitsValue(s[..j]) <= MaxUint64 && j < |s| && !IsDigit(s[j]) ==> ScanDigits(s, i) == SyntaxError
    ensures DigitsValue(s[..j]) <= MaxUint64 && j == |s| ==> ScanDigits(s, i) == Parsed(DigitsValue(s[..j]))
    decreases j - i
  {
    if i < j {
      assert s[..j][i] == s[i];
      assert s[..j][..i + 1] == s[..i + 1];
      PrefixValueBound(s[..j], i + 1);
      if DigitsValue(s[..i + 1]) <= MaxUint64 {
        ScanFrom(s, i + 1, j);
      }
    }
  }

  /** What ParseUint reports, for every input. */
  lemma ParseUintOutcome(t: string)
    ensures AllDigits(t) && |t| > 0 && DigitsValue(t) <= MaxUint64 ==> ParseUint(t) == Parsed(DigitsValue(t))
    ensures forall j :: 0 < j <= |t| && AllDigits(t[..j]) && DigitsValue(t[..j]) > MaxUint64 ==>
      ParseUint(t) == RangeError
    ensures forall k :: 0 <= k < |t| && !IsDigit(t[k]) && AllDigits(t[..k]) && DigitsValue(t[..k]) <= MaxUint64 ==>
      ParseUint(t) == SyntaxError
  {
    if |t| > 0 {
      assert t[..0] == [];
      assert t[..|t|] == t;
      if AllDigits(t) {
        ScanFrom(t, 0, |t|);
      }
      forall j | 0 < j <= |t| && AllDigits(t[..j]) && DigitsValue(t[..j]) > MaxUint64
        ensures ParseUint(t) == RangeError
      {
        ScanFrom(t, 0, j);
      }
      forall k | 0 <= k < |t| && !IsDigit(t[k]) && AllDigits(t[..k]) && DigitsValue(t[..k]) <= MaxUint64
        ensures ParseUint(t) == SyntaxError
      {
        ScanFrom(t, 0, k);
      }
    }
  }

  /** The part of s after an optional leading sign. */
  function Magnitude(s: string): string {
    if |s| > 0 && (s[0] == '-' || s[0] == '+') then s[1..] else s
  }

  predicate Negative(s: string) {
    |s| > 0 && s[0] == '-'
  }

  /**
   * strconv.Atoi(s) on a 64-bit platform, with its error discarded: the sign
   * is taken off and the rest parsed by ParseUint; a syntax error gives 0,
   * and a value out of the int64 range (a range error included) is clamped
   * to MinInt64 or MaxInt64, as ParseInt does.
   */
  function Atoi(s: string): (r: Int64)
    ensures AllDigits(Magnitude(s)) && DigitsValue(Magnitude(s)) <= MaxInt64 ==>
      r == if Negative(s) then -(DigitsValue(Magnitude(s)) as int) else DigitsValue(Magnitude(s))
    ensures AllDigits(Magnitude(s)) && DigitsValue(Magnitude(s)) > MaxInt64 ==>
      r == if Negative(s) then MinInt64 else MaxInt64
    ensures forall j ::
      0 < j <= |Magnitude(s)| && AllDigits(Magnitude(s)[..j]) && DigitsValue(Magnitude(s)[..j]) > MaxUint64
      ==> r == if Negative(s) then MinInt64 else MaxInt64
    ensures forall k ::
      0 <= k < |Magnitude(s)| && !IsDigit(Magnitude(s)[k]) && AllDigits(Magnitude(s)[..k])
      && DigitsValue(Magnitude(s)[..k]) <= MaxUint64
      ==> r == 0
  {
    var digits := Magnitude(s);
    ParseUintOutcome(digits);
    assert digits[..|digits|] == digits;
    match ParseUint(digits)
    case SyntaxError => 0
    case RangeError => if Negative(s) then MinInt64 else MaxInt64
    case Parsed(v) =>
      if Negative(s) then (if v > -MinInt64 then MinInt64 else -(v as int))
      else (if v > MaxInt64 then MaxInt64 else v)
  }

  /** Reading back a formatted count gives the count. */
  lemma AtoiItoa(n: nat)
    requires n <= MaxInt64
    ensures Atoi(Itoa(n)) == n
  {
    assert IsDigit(Itoa(n)[0]);
  }

  /** A string of digits never contains "\r\n". */
  lemma {:induction false} DigitsHaveNoCRLF(s: string)
    requires AllDigits(s)
    ensures NoCRLF(s)
    decreases |s|
  {
    if |s| >= 2 {
      assert IsDigit(s[0]);
      DigitsHaveNoCRLF(s[1..]);
    }
  }
}
