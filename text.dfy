/**
 * Text: the few string operations the system relies on — Python's `str(int)`
 * and `int(str)` on plain decimal numerals, `str.strip(chars)` and
 * `str.split(", ")` — with the round trips between them.
 */
module Text {
  import opened Wrappers

  predicate IsDigit(c: char) {
    '0' <= c <= '9'
  }

  predicate AllDigits(s: string) {
    forall i | 0 <= i < |s| :: IsDigit(s[i])
  }

  function DigitChar(d: nat): (c: char)
    requires d < 10
    ensures IsDigit(c)
  {
    (d + '0' as int) as char
  }

  function DigitValue(c: char): (d: nat)
    requires IsDigit(c)
    ensures d < 10
  {
    (c as int - '0' as int) as nat
  }

  lemma DigitRoundTrip(d: nat)
    requires d < 10
    ensures DigitValue(DigitChar(d)) == d
  {
  }

  /** `str(n)` for a natural number: its decimal digits, no leading zero. */
  function NatToString(n: nat): (s: string)
    ensures |s| > 0 && AllDigits(s)
    ensures s[0] == '0' ==> n == 0
    decreases n
  {
    if n < 10 then [DigitChar(n)]
    else NatToString(n / 10) + [DigitChar(n % 10)]
  }

  /** The value of a string of decimal digits, leading zeros allowed. */
  function DigitsValue(s: string): nat
    requires AllDigits(s)
  {
    if |s| == 0 then 0
    else DigitsValue(s[..|s| - 1]) * 10 + DigitValue(s[|s| - 1])
  }

  lemma {:induction false} NatRoundTrip(n: nat)
    ensures DigitsValue(NatToString(n)) == n
    decreases n
  {
    if n < 10 {
      DigitRoundTrip(n);
    } else {
      var s := NatToString(n);
      NatRoundTrip(n / 10);
      assert s[..|s| - 1] == NatToString(n / 10);
      DigitRoundTrip(n % 10);
    }
  }

  /** `str(n)`: a minus sign before the digits of a negative number. */
  function IntToString(n: int): (s: string)
    ensures |s| > 0
  {
    if n < 0 then "-" + NatToString(-n) else NatToString(n)
  }

  /**
   * `int(s)` on a decimal numeral: an optional minus sign and at least one
   * digit. Anything else is the ValueError the source raises.
   */
  function ParseInt(s: string): (r: Option<int>)
    ensures r.Some? <==> (|s| > 0 && s[0] == '-' && |s| > 1 && AllDigits(s[1..]))
                         || (|s| > 0 && AllDigits(s))
  {
    if |s| > 0 && s[0] == '-' then
      if |s| > 1 && AllDigits(s[1..]) then Some(-(DigitsValue(s[1..]) as int)) else None
    else if |s| > 0 && AllDigits(s) then Some(DigitsValue(s))
    else None
  }

  /** `int(str(n)) == n` for every integer. */
  lemma IntRoundTrip(n: int)
    ensures ParseInt(IntToString(n)) == Some(n)
  {
    var s := IntToString(n);
    if n < 0 {
      assert s[1..] == NatToString(-n);
      NatRoundTrip(-n);
    } else {
      NatRoundTrip(n);
    }
  }

  /** `str(int(s))`: the canonical spelling of a numeral (so "01234" becomes "1234"). */
  function Canonical(s: string): (r: Option<string>)
    ensures r.Some? <==> ParseInt(s).Some?
    ensures r.Some? ==> ParseInt(r.value) == ParseInt(s)
  {
    match ParseInt(s)
    case None => None
    case Some(n) => IntRoundTrip(n); Some(IntToString(n))
  }

  /** Canonicalising twice changes nothing more. */
  lemma CanonicalIdempotent(s: string)
    requires Canonical(s).Some?
    ensures Canonical(Canonical(s).value) == Canonical(s)
  {
    var n := ParseInt(s).value;
    IntRoundTrip(n);
  }

  // ---- strip and split ----------------------------------------------------------

  /** `s.lstrip(chars)`. */
  function StripLeft(s: string, chars: set<char>): (r: string)
    ensures |r| <= |s| && r == s[|s| - |r|..]
    ensures |r| > 0 ==> r[0] !in chars
    ensures forall i | 0 <= i < |s| - |r| :: s[i] in chars
  {
    if |s| > 0 && s[0] in chars then StripLeft(s[1..], chars) else s
  }

  /** `s.rstrip(chars)`. */
  function StripRight(s: string, chars: set<char>): (r: string)
    ensures |r| <= |s| && r == s[..|r|]
    ensures |r| > 0 ==> r[|r| - 1] !in chars
    ensures forall i | |r| <= i < |s| :: s[i] in chars
  {
    if |s| > 0 && s[|s| - 1] in chars then StripRight(s[..|s| - 1], chars) else s
  }

  /** `s.strip(chars)`: drop every leading and trailing character found in `chars`. */
  function Strip(s: string, chars: set<char>): string {
    StripRight(StripLeft(s, chars), chars)
  }

  predicate AllIn(s: string, chars: set<char>) {
    forall i | 0 <= i < |s| :: s[i] in chars
  }

  /** Strip removes exactly a stripped-character frame around an inner text that starts and ends outside `chars`. */
  lemma StripFrame(pre: string, inner: string, post: string, chars: set<char>)
    requires AllIn(pre, chars) && AllIn(post, chars)
    requires |inner| > 0 && inner[0] !in chars && inner[|inner| - 1] !in chars
    ensures Strip(pre + inner + post, chars) == inner
  {
    assert pre + inner + post == pre + (inner + post);
    StripLeftFrame(pre, inner + post, chars);
    StripRightFrame(inner, post, chars);
  }

  lemma {:induction false} StripLeftFrame(pre: string, rest: string, chars: set<char>)
    requires forall i | 0 <= i < |pre| :: pre[i] in chars
    requires |rest| > 0 && rest[0] !in chars
    ensures StripLeft(pre + rest, chars) == rest
  {
    if |pre| > 0 {
      assert (pre + rest)[1..] == pre[1..] + rest;
      StripLeftFrame(pre[1..], rest, chars);
    }
  }

  lemma {:induction false} StripRightFrame(rest: string, post: string, chars: set<char>)
    requires forall i | 0 <= i < |post| :: post[i] in chars
    requires |rest| > 0 && rest[|rest| - 1] !in chars
    ensures StripRight(rest + post, chars) == rest
  {
    if |post| > 0 {
      assert (rest + post)[..|rest + post| - 1] == rest + post[..|post| - 1];
      StripRightFrame(rest, post[..|post| - 1], chars);
    } else {
      assert rest + post == rest;
    }
  }

  /** `s.split(", ")`: the pieces between the left-to-right occurrences of ", ". */
  function Split(s: string): (r: seq<string>)
    ensures |r| > 0
  {
    if |s| == 0 then [""]
    else if |s| >= 2 && s[0] == ',' && s[1] == ' ' then [""] + Split(s[2..])
    else
      var rest := Split(s[1..]);
      [[s[0]] + rest[0]] + rest[1..]
  }

  /** `", ".join(parts)`. */
  function Join(parts: seq<string>): string {
    if |parts| == 0 then ""
    else if |parts| == 1 then parts[0]
    else parts[0] + ", " + Join(parts[1..])
  }

  predicate NoComma(t: string) {
    forall i | 0 <= i < |t| :: t[i] != ','
  }

  /** A comma-free prefix glues onto the first piece of the rest. */
  lemma {:induction false} SplitPrefix(t: string, rest: string)
    requires NoComma(t)
    ensures Split(t + rest) == [t + Split(rest)[0]] + Split(rest)[1..]
  {
    if |t| > 0 {
      var s := t + rest;
      assert s[0] == t[0] && s[0] != ',';
      assert s[1..] == t[1..] + rest;
      SplitPrefix(t[1..], rest);
      var tail := Split(s[1..]);
      assert tail == [t[1..] + Split(rest)[0]] + Split(rest)[1..];
      assert Split(s) == [[s[0]] + tail[0]] + tail[1..];
      assert [t[0]] + (t[1..] + Split(rest)[0]) == t + Split(rest)[0];
    } else {
      var r := Split(rest);
      assert t + rest == rest && t + r[0] == r[0];
      assert r == [r[0]] + r[1..];
    }
  }

  /** Splitting a join of comma-free pieces gives the pieces back. */
  lemma {:induction false} SplitJoin(parts: seq<string>)
    requires |parts| > 0
    requires forall i | 0 <= i < |parts| :: NoComma(parts[i])
    ensures Split(Join(parts)) == parts
  {
    if |parts| == 1 {
      SplitPrefix(parts[0], "");
      assert parts[0] + "" == parts[0];
    } else {
      var j := Join(parts[1..]);
      SplitJoin(parts[1..]);
      assert parts[0] + ", " + j == parts[0] + (", " + j);
      SplitPrefix(parts[0], ", " + j);
      assert (", " + j)[2..] == j;
      assert Split(", " + j) == [""] + Split(j);
      assert parts[0] + "" == parts[0];
      assert parts == [parts[0]] + parts[1..];
    }
  }
}
