/** Go's `strconv.ParseUint`, `strconv.ParseInt` (bit size 0, i.e. 64) and the `%x`, `%04x`, `%d` verbs. */
module Strconv {
  import opened Wrappers

  const MAX_UINT64: int := 0xFFFF_FFFF_FFFF_FFFF
  const MAX_INT64: int := 0x7FFF_FFFF_FFFF_FFFF
  const MIN_INT64: int := -0x8000_0000_0000_0000

  /** The two bases the core parses in. */
  type Base = b: nat | b == 10 || b == 16 witness 10

  datatype NumError = Syntax | Range

  /** Go's `(value, err)` result of a parse: the value is defined even when `err` is set. */
  datatype Num = Num(value: int, err: Option<NumError>)

  /** The digit `c` stands for, in any base up to 36, as ParseUint reads it. */
  function DigitValue(c: char): Option<nat> {
    if '0' <= c <= '9' then Some(c as int - '0' as int)
    else if 'a' <= c <= 'z' then Some(c as int - 'a' as int + 10)
    else if 'A' <= c <= 'Z' then Some(c as int - 'A' as int + 10)
    else None
  }

  predicate IsDigit(c: char, base: Base) {
    DigitValue(c).Some? && DigitValue(c).value < base
  }

  /**
   * The digit loop of ParseUint from accumulated value `n`: a char that is not a digit of the
   * base stops with a syntax error and value 0; a value past 2^64-1 stops with a range error and
   * value 2^64-1, whatever follows.
   */
  function Scan(s: string, base: Base, n: nat): (r: Num)
    requires n <= MAX_UINT64
    ensures 0 <= r.value <= MAX_UINT64
    ensures r.err.None? ==> n <= r.value
    decreases |s|
  {
    if s == [] then Num(n, None)
    else if !IsDigit(s[0], base) then Num(0, Some(Syntax))
    else
      var m := n * base + DigitValue(s[0]).value;
      if m > MAX_UINT64 then Num(MAX_UINT64, Some(Range))
      else Scan(s[1..], base, m)
  }

  /** `strconv.ParseUint(s, base, 0)`. */
  function ParseUint(s: string, base: Base): Num {
    if s == "" then Num(0, Some(Syntax)) else Scan(s, base, 0)
  }

  /**
   * `strconv.ParseInt(s, 10, 0)`: an optional sign, then ParseUint, clamped to the int64 range.
   * Text that is not a number gives the value 0 with a syntax error.
   */
  function ParseInt(s: string): (r: Num)
    ensures MIN_INT64 <= r.value <= MAX_INT64
    ensures r.err == Some(Syntax) ==> r.value == 0
  {
    if s == "" then Num(0, Some(Syntax))
    else
      var neg := s[0] == '-';
      var u := ParseUint(if s[0] == '+' || neg then s[1..] else s, 10);
      if u.err == Some(Syntax) then Num(0, Some(Syntax))
      else if !neg && u.value > MAX_INT64 then Num(MAX_INT64, Some(Range))
      else if neg && u.value > -MIN_INT64 then Num(MIN_INT64, Some(Range))
      else Num(if neg then -u.value else u.value, u.err)
  }

  function DigitChar(d: nat): char
    requires d < 16
  {
    "0123456789abcdef"[d]
  }

  /** `%x` (base 16) and `%d` (base 10) of a non-negative integer: no leading zeros, lower case. */
  function Format(n: nat, base: Base): (r: string)
    ensures |r| >= 1
    decreases n
  {
    (if n < base then "" else Format(n / base, base)) + [DigitChar(n % base)]
  }

  function Zeros(k: nat): (r: string)
    ensures |r| == k && forall i :: 0 <= i < k ==> r[i] == '0'
  {
    seq(k, i => '0')
  }

  /** `fmt.Sprintf("%04x", n)`: zero-padded to at least four hex digits. */
  function Hex04(n: nat): string {
    var h := Format(n, 16);
    if |h| < 4 then Zeros(4 - |h|) + h else h
  }

  /** `fmt.Sprintf("%d", n)` for a non-negative value. */
  function Decimal(n: nat): string {
    Format(n, 10)
  }

  /** `%d` writes only the digits `0` to `9`. */
  lemma {:induction false} DecimalChars(n: nat)
    ensures forall m :: 0 <= m < |Decimal(n)| ==> '0' <= Decimal(n)[m] <= '9'
    decreases n
  {
    var last := DigitChar(n % 10);
    assert '0' <= last <= '9';
    if n >= 10 {
      DecimalChars(n / 10);
      assert Decimal(n) == Decimal(n / 10) + [last];
    }
  }

  lemma DigitCharValue(d: nat, base: Base)
    requires d < base
    ensures IsDigit(DigitChar(d), base) && DigitValue(DigitChar(d)).value == d
  {
  }

  /** The digit loop over `s + t` is the loop over `t` continued from where `s` left off. */
  lemma {:induction false} ScanAppend(s: string, t: string, base: Base, n: nat)
    requires n <= MAX_UINT64
    ensures Scan(s + t, base, n) ==
      (var r := Scan(s, base, n); if r.err.None? then Scan(t, base, r.value) else r)
    decreases |s|
  {
    if s != [] {
      assert (s + t)[0] == s[0];
      assert (s + t)[1..] == s[1..] + t;
      if IsDigit(s[0], base) {
        var m := n * base + DigitValue(s[0]).value;
        if m <= MAX_UINT64 {
          ScanAppend(s[1..], t, base, m);
        }
      }
    } else {
      assert s + t == t;
    }
  }

  /** Leading zeros do not change what ParseUint reads. */
  lemma {:induction false} ScanZeros(k: nat, s: string, base: Base)
    ensures Scan(Zeros(k) + s, base, 0) == Scan(s, base, 0)
    decreases k
  {
    if k > 0 {
      var z := Zeros(k);
      assert (z + s)[0] == '0';
      assert (z + s)[1..] == Zeros(k - 1) + s;
      assert IsDigit('0', base) && DigitValue('0').value == 0;
      assert Scan(z + s, base, 0) == Scan((z + s)[1..], base, 0 * base + 0);
      ScanZeros(k - 1, s, base);
    } else {
      assert Zeros(0) + s == s;
    }
  }

  /** Parsing the formatted digits gives the number back: ParseUint inverts `%x` and `%d`. */
  lemma {:induction false} ParseFormat(n: nat, base: Base)
    requires n <= MAX_UINT64
    ensures ParseUint(Format(n, base), base) == Num(n, None)
    decreases n
  {
    BaseDivMod(n, base);
    var last := [DigitChar(n % base)];
    DigitCharValue(n % base, base);
    if n < base {
      assert Format(n, base) == last;
      assert Scan(last, base, 0) == Scan([], base, 0 * base + n);
    } else {
      ParseFormat(n / base, base);
      ScanAppend(Format(n / base, base), last, base, 0);
    }
  }

  lemma BaseDivMod(n: nat, base: Base)
    ensures (n / base) * base + n % base == n && n % base < base
    ensures n < base ==> n / base == 0 && n % base == n
    ensures n >= base ==> 0 < n / base < n
  {
    if base == 10 {
      assert (n / 10) * 10 + n % 10 == n;
    } else {
      assert (n / 16) * 16 + n % 16 == n;
    }
  }

  /** ParseUint inverts `%04x` on every value. */
  lemma ParseHex04(n: nat)
    requires n <= MAX_UINT64
    ensures ParseUint(Hex04(n), 16) == Num(n, None)
  {
    var h := Format(n, 16);
    ParseFormat(n, 16);
    if |h| < 4 {
      ScanZeros(4 - |h|, h, 16);
    }
  }

  function Pow16(k: nat): (r: nat)
    ensures r >= 1
  {
    if k == 0 then 1 else 16 * Pow16(k - 1)
  }

  /** `%x` of `n` has at most `k` digits exactly when `n < 16^k`. */
  lemma {:induction false} HexWidth(n: nat, k: nat)
    requires k >= 1
    ensures |Format(n, 16)| <= k <==> n < Pow16(k)
    decreases k
  {
    if k > 1 && n >= 16 {
      HexWidth(n / 16, k - 1);
    }
  }

  /** `%04x` is exactly four hex digits for every length below 65536, and longer from there on. */
  lemma Hex04Width(n: nat)
    ensures |Hex04(n)| >= 4
    ensures |Hex04(n)| == 4 <==> n < 65536
    ensures forall i :: 0 <= i < |Hex04(n)| ==> IsDigit(Hex04(n)[i], 16)
  {
    HexWidth(n, 4);
    assert Pow16(4) == 65536;
    FormatDigits(n, 16);
  }

  lemma {:induction false} FormatDigits(n: nat, base: Base)
    ensures forall i :: 0 <= i < |Format(n, base)| ==> IsDigit(Format(n, base)[i], base)
    decreases n
  {
    DigitCharValue(n % base, base);
    if n >= base {
      FormatDigits(n / base, base);
    }
  }

  predicate AllHex(s: string) {
    forall i :: 0 <= i < |s| ==> IsDigit(s[i], 16)
  }

  /** At most 16 hex digits never overflow, from an accumulated value small enough. */
  lemma {:induction false} ScanHexFits(s: string, n: nat)
    requires |s| <= 16 && n < Pow16(16 - |s|) && n <= MAX_UINT64
    ensures Scan(s, 16, n).err.None? <==> AllHex(s)
    decreases |s|
  {
    if s != [] && IsDigit(s[0], 16) {
      var k := 16 - |s|;
      var m := n * 16 + DigitValue(s[0]).value;
      assert m < Pow16(k + 1) by {
        assert Pow16(k + 1) == 16 * Pow16(k);
        assert (n + 1) * 16 <= Pow16(k) * 16;
      }
      assert m <= MAX_UINT64 by {
        PowMonotone(k + 1, 16);
        Pow16Sixteen();
      }
      assert Scan(s, 16, n) == Scan(s[1..], 16, m);
      ScanHexFits(s[1..], m);
      assert AllHex(s) <==> AllHex(s[1..]) by {
        assert forall i :: 0 <= i < |s[1..]| ==> s[1..][i] == s[i + 1];
      }
    } else if s != [] {
      assert Scan(s, 16, n).err == Some(Syntax);
      assert !AllHex(s) by {
        assert !IsDigit(s[0], 16);
      }
    }
  }

  lemma Pow16Sixteen()
    ensures Pow16(16) == MAX_UINT64 + 1
  {
    assert Pow16(2) == 0x100;
    assert Pow16(4) == 0x1_0000;
    assert Pow16(6) == 0x100_0000;
    assert Pow16(8) == 0x1_0000_0000;
    assert Pow16(10) == 0x100_0000_0000;
    assert Pow16(12) == 0x1_0000_0000_0000;
    assert Pow16(14) == 0x100_0000_0000_0000;
  }

  lemma {:induction false} PowMonotone(j: nat, k: nat)
    requires j <= k
    ensures Pow16(j) <= Pow16(k)
    decreases k
  {
    if j < k {
      PowMonotone(j, k - 1);
    }
  }

  /**
   * A size field of up to 16 chars parses exactly when it is non-empty and all hex digits:
   * every other text is a ParseUint error.
   */
  lemma HexParseIff(s: string)
    requires |s| <= 16
    ensures ParseUint(s, 16).err.None? <==> |s| > 0 && AllHex(s)
  {
    if s != "" {
      ScanHexFits(s, 0);
    }
  }

  /** ParseInt reads back every non-negative `%d` in the int64 range. */
  lemma ParseIntDecimal(n: nat)
    requires n <= MAX_INT64
    ensures ParseInt(Decimal(n)) == Num(n, None)
  {
    FormatDigits(n, 10);
    ParseFormat(n, 10);
    var d := Decimal(n);
    assert IsDigit(d[0], 10);
  }
}
