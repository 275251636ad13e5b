/** JavaScript's `parseInt` (with no radix argument) and decimal rendering
    of the numbers the userscript shows, such as `Level 42`. */
module Numbers {
  import opened Wrappers
  import opened Text

  predicate IsDigit(c: char) { '0' <= c <= '9' }

  function DigitValue(c: char): nat
    requires IsDigit(c)
  {
    c as int - '0' as int
  }

  /** The value of a hexadecimal digit, if `c` is one. */
  function HexDigit(c: char): Option<nat> {
    if '0' <= c <= '9' then Some(c as int - '0' as int)
    else if 'a' <= c <= 'f' then Some(c as int - 'a' as int + 10)
    else if 'A' <= c <= 'F' then Some(c as int - 'A' as int + 10)
    else None
  }

  /** Length of the leading run of decimal digits. */
  function DigitRun(s: string): (n: nat)
    ensures n <= |s|
    ensures forall k :: 0 <= k < n ==> IsDigit(s[k])
    ensures n < |s| ==> !IsDigit(s[n])
  {
    if s != [] && IsDigit(s[0]) then 1 + DigitRun(s[1..]) else 0
  }

  /** Length of the leading run of hexadecimal digits. */
  function HexRun(s: string): (n: nat)
    ensures n <= |s|
    ensures forall k :: 0 <= k < n ==> HexDigit(s[k]).Some?
    ensures n < |s| ==> HexDigit(s[n]).None?
  {
    if s != [] && HexDigit(s[0]).Some? then 1 + HexRun(s[1..]) else 0
  }

  /** The number a string of decimal digits denotes, most significant first. */
  function DecimalValue(ds: string): nat
    requires forall k :: 0 <= k < |ds| ==> IsDigit(ds[k])
  {
    if ds == [] then 0 else 10 * DecimalValue(ds[..|ds| - 1]) + DigitValue(ds[|ds| - 1])
  }

  /** The number a string of hexadecimal digits denotes. */
  function HexValue(hs: string): nat
    requires forall k :: 0 <= k < |hs| ==> HexDigit(hs[k]).Some?
  {
    if hs == [] then 0 else 16 * HexValue(hs[..|hs| - 1]) + HexDigit(hs[|hs| - 1]).value
  }

  /** The unsigned part of `parseInt`: a `0x`/`0X` prefix switches to base
      16; the value is that of the longest run of digits that follows, and
      `None` (NaN) when that run is empty. Whatever follows the run is
      ignored. */
  function ParseUnsigned(u: string): (r: Option<nat>)
    ensures r.Some? ==> |u| > 0 && IsDigit(u[0])
  {
    if |u| >= 2 && u[0] == '0' && (u[1] == 'x' || u[1] == 'X') then
      var n := HexRun(u[2..]);
      if n == 0 then None else Some(HexValue(u[2..][..n]))
    else
      var n := DigitRun(u);
      if n == 0 then None else Some(DecimalValue(u[..n]))
  }

  /** `parseInt(s)` with no radix: leading white space is skipped, then an
      optional sign, then the unsigned part is read. */
  function ParseInt(s: string): (r: Option<int>)
    ensures r.Some? ==> exists k :: 0 <= k < |s| && IsDigit(s[k])
  {
    var t := TrimStart(s);
    if |t| > 0 && (t[0] == '-' || t[0] == '+') then
      var v := ParseUnsigned(t[1..]);
      assert v.Some? ==> IsDigit(s[|s| - |t| + 1]);
      if v.Some? && t[0] == '-' then Some(-(v.value as int)) else v
    else
      var v := ParseUnsigned(t);
      assert v.Some? ==> IsDigit(s[|s| - |t|]);
      v
  }

  function DigitChar(d: nat): (c: char)
    requires d < 10
    ensures IsDigit(c) && DigitValue(c) == d
  {
    ('0' as int + d) as char
  }

  /** The decimal numeral of `n`, as template literals render it. */
  function DecimalString(n: nat): (r: string)
    ensures |r| >= 1
    ensures forall k :: 0 <= k < |r| ==> IsDigit(r[k])
    ensures r[0] == '0' ==> n == 0
  {
    if n < 10 then [DigitChar(n)] else DecimalString(n / 10) + [DigitChar(n % 10)]
  }

  /** Rendering then reading back a numeral gives the number. */
  lemma {:induction false} DecimalValueOfString(n: nat)
    ensures DecimalValue(DecimalString(n)) == n
  {
    if n >= 10 {
      DecimalValueOfString(n / 10);
      var r := DecimalString(n);
      assert r[..|r| - 1] == DecimalString(n / 10);
    }
  }

  /** `parseInt` reads back every numeral it could have been given. */
  lemma ParseIntOfDecimal(n: nat)
    ensures ParseInt(DecimalString(n)) == Some(n)
  {
    ParseIntStopsAtNonDigit(n, "");
    assert DecimalString(n) + "" == DecimalString(n);
  }

  /** `parseInt` reads a numeral followed by anything that is not a digit
      (nor an `x` that would make a leading `0` a hex prefix) as the
      numeral alone: `parseInt("12px")` is 12. */
  lemma ParseIntStopsAtNonDigit(n: nat, tail: string)
    requires tail == [] || (!IsDigit(tail[0]) && tail[0] != 'x' && tail[0] != 'X')
    ensures ParseInt(DecimalString(n) + tail) == Some(n)
  {
    var d := DecimalString(n);
    var s := d + tail;
    assert s[0] == d[0];
    assert !(|s| >= 2 && s[0] == '0' && (s[1] == 'x' || s[1] == 'X')) by {
      if |s| >= 2 && s[0] == '0' {
        assert n == 0 && |d| == 1;
        assert s[1] == tail[0];
      }
    }
    DigitRunStops(d, tail);
    ParseIntOfDigitStart(s);
    assert s[..|d|] == d;
    DecimalValueOfString(n);
  }

  /** A string that starts with a digit and no hex prefix is read in
      decimal, up to its first non-digit. */
  lemma ParseIntOfDigitStart(s: string)
    requires |s| > 0 && IsDigit(s[0])
    requires !(|s| >= 2 && s[0] == '0' && (s[1] == 'x' || s[1] == 'X'))
    ensures DigitRun(s) > 0 && ParseInt(s) == Some(DecimalValue(s[..DigitRun(s)]))
  {
    assert !IsSpace(s[0]);
    assert SpaceRunFrom(s, 0) == 0;
    assert TrimStart(s) == s;
    assert s[0] != '-' && s[0] != '+';
    assert DigitRun(s) == 1 + DigitRun(s[1..]);
  }

  lemma DigitRunStops(s: string, tail: string)
    requires forall k :: 0 <= k < |s| ==> IsDigit(s[k])
    requires tail == [] || !IsDigit(tail[0])
    ensures DigitRun(s + tail) == |s|
  {
    var st := s + tail;
    assert forall k :: 0 <= k < |s| ==> IsDigit(st[k]);
    assert |st| > |s| ==> !IsDigit(st[|s|]);
  }

  /** Leading white space never changes what `parseInt` reads. */
  lemma ParseIntSkipsLeadingSpace(s: string)
    ensures ParseInt(s) == ParseInt(TrimStart(s))
  {
    var t := TrimStart(s);
    assert SpaceRunFrom(t, 0) == 0;
    assert TrimStart(t) == t;
  }

  /** `parseInt` is NaN when, after the white space, the text starts with
      neither a digit nor a sign, or is empty: `parseInt("abc")`,
      `parseInt("")`. */
  lemma ParseIntNaN(s: string)
    requires TrimStart(s) == [] ||
             (!IsDigit(TrimStart(s)[0]) && TrimStart(s)[0] != '-' && TrimStart(s)[0] != '+')
    ensures ParseInt(s) == None
  {
    var t := TrimStart(s);
    if t != [] {
      assert !IsDigit(t[0]);
      assert DigitRun(t) == 0;
    }
  }

  /** A minus sign negates the numeral after it, a plus sign keeps it:
      `parseInt("-12")` is -12 and `parseInt("+12")` is 12. */
  lemma ParseIntSigned(n: nat, tail: string)
    requires tail == [] || (!IsDigit(tail[0]) && tail[0] != 'x' && tail[0] != 'X')
    ensures ParseInt("-" + (DecimalString(n) + tail)) == Some(-(n as int))
    ensures ParseInt("+" + (DecimalString(n) + tail)) == Some(n)
  {
    var u := DecimalString(n) + tail;
    UnsignedOfNumeral(n, tail);
    SignedStart('-', u);
    SignedStart('+', u);
  }

  /** The unsigned part of a numeral followed by a non-digit. */
  lemma UnsignedOfNumeral(n: nat, tail: string)
    requires tail == [] || (!IsDigit(tail[0]) && tail[0] != 'x' && tail[0] != 'X')
    ensures ParseUnsigned(DecimalString(n) + tail) == Some(n)
  {
    var u := DecimalString(n) + tail;
    ParseIntStopsAtNonDigit(n, tail);
    assert !IsSpace(u[0]);
    assert SpaceRunFrom(u, 0) == 0;
    assert TrimStart(u) == u;
  }

  /** After a sign, `parseInt` reads the unsigned part right behind it. */
  lemma SignedStart(sign: char, u: string)
    requires sign == '-' || sign == '+'
    ensures ParseInt([sign] + u) ==
      (if ParseUnsigned(u).Some? && sign == '-' then Some(-(ParseUnsigned(u).value as int)) else ParseUnsigned(u))
  {
    var s := [sign] + u;
    assert !IsSpace(s[0]);
    assert SpaceRunFrom(s, 0) == 0;
    assert TrimStart(s) == s;
    assert s[1..] == u;
  }

  /** A `0x` or `0X` prefix reads the hex digits after it, up to the first
      other character (`parseInt("0x1A")` and `parseInt("0X1f")` are 26 and
      31), and is NaN when none follows (`parseInt("0xg")`). */
  lemma ParseIntHex(h: string)
    ensures HexRun(h) > 0 ==> ParseInt("0x" + h) == Some(HexValue(h[..HexRun(h)]))
    ensures HexRun(h) == 0 ==> ParseInt("0x" + h) == None
    ensures HexRun(h) > 0 ==> ParseInt("0X" + h) == Some(HexValue(h[..HexRun(h)]))
    ensures HexRun(h) == 0 ==> ParseInt("0X" + h) == None
  {
    HexStart("0x" + h);
    HexStart("0X" + h);
  }

  /** A string starting with `0` is read from its first character, and what
      follows the prefix is its tail. */
  lemma HexStart(s: string)
    requires |s| >= 2 && s[0] == '0'
    ensures ParseInt(s) == ParseUnsigned(s)
  {
    assert !IsSpace(s[0]);
    assert SpaceRunFrom(s, 0) == 0;
    assert TrimStart(s) == s;
  }

  /** Text starting with a digit is read by `parseInt` exactly as its
      unsigned part, so after a sign (`SignedStart`) any unsigned text,
      such as `007` or `0x1F`, has the value `parseInt` gives it alone:
      `parseInt("+007")` is 7 and `parseInt("-0x1F")` is -31. */
  lemma UnsignedIsParseInt(u: string)
    requires |u| > 0 && IsDigit(u[0])
    ensures ParseUnsigned(u) == ParseInt(u)
  {
    assert !IsSpace(u[0]);
    assert SpaceRunFrom(u, 0) == 0;
    assert TrimStart(u) == u;
  }

  /** The text `/level n` stores and level elements show: `Level n`. */
  function LevelLabel(n: nat): (r: string)
    ensures |r| > 6 && r[..6] == "Level "
  {
    "Level " + DecimalString(n)
  }

  /** The number of a level label reads back as the level. */
  lemma LevelLabelReadsBack(n: nat)
    ensures ParseInt(LevelLabel(n)[6..]) == Some(n)
  {
    assert LevelLabel(n)[6..] == DecimalString(n);
    ParseIntOfDecimal(n);
  }

  /** Different levels never share a label. */
  lemma LevelLabelInjective(a: nat, b: nat)
    requires LevelLabel(a) == LevelLabel(b)
    ensures a == b
  {
    assert DecimalString(a) == LevelLabel(a)[6..];
    DecimalValueOfString(a);
    DecimalValueOfString(b);
  }
}
