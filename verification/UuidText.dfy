/** The text form of UUIDs: RFC 9562, section 4. */
module UuidText {

  predicate IsHex(c: char) {
    '0' <= c <= '9' || 'a' <= c <= 'f' || 'A' <= c <= 'F'
  }

  predicate IsDashPlace(k: int) {
    k == 8 || k == 13 || k == 18 || k == 23
  }

  // 8-4-4-4-12 hexadecimal digits of either case.
  predicate IsUuidText(s: string) {
    |s| == 36 && forall k | 0 <= k < 36 :: if IsDashPlace(k) then s[k] == '-' else IsHex(s[k])
  }

  const DIGITS := "0123456789abcdef"

  function HexDigit(n: nat): (c: char)
    requires n < 16
    ensures IsHex(c)
  {
    DIGITS[n]
  }

  // What a hexadecimal digit of either case is worth.
  function DigitValue(c: char): nat
    requires IsHex(c)
  {
    if c <= '9' then c as nat - '0' as nat
    else if c <= 'F' then c as nat - 'A' as nat + 10
    else c as nat - 'a' as nat + 10
  }

  lemma HexDigitValue(n: nat)
    requires n < 16
    ensures DigitValue(HexDigit(n)) == n && !('A' <= HexDigit(n) <= 'F')
  {
    assert n < 10 ==> HexDigit(n) as int == '0' as int + n;
    assert n >= 10 ==> HexDigit(n) as int == 'a' as int + n - 10;
  }

  // The last `width` hexadecimal digits of n.
  function Hex(n: nat, width: nat): (s: string)
    ensures |s| == width && forall c | c in s :: IsHex(c)
  {
    if width == 0 then "" else Hex(n / 16, width - 1) + [HexDigit(n % 16)]
  }

  function Power16(width: nat): nat {
    if width == 0 then 1 else 16 * Power16(width - 1)
  }

  // The number that hexadecimal digits stand for.
  function HexValue(h: string): nat
    requires forall c | c in h :: IsHex(c)
  {
    if h == "" then 0
    else
      var last := h[|h| - 1];
      assert last in h && IsHex(last);
      16 * HexValue(h[..|h| - 1]) + DigitValue(last)
  }

  lemma {:induction false} HexValueOfHex(n: nat, width: nat)
    requires n < Power16(width)
    ensures HexValue(Hex(n, width)) == n
    ensures forall c | c in Hex(n, width) :: !('A' <= c <= 'F')
  {
    if width == 0 {
    } else {
      HexValueOfHex(n / 16, width - 1);
      HexDigitValue(n % 16);
      assert Hex(n, width)[..width - 1] == Hex(n / 16, width - 1);
    }
  }

  function Dashed(h: string): string
    requires |h| == 32
  {
    h[..8] + "-" + h[8..12] + "-" + h[12..16] + "-" + h[16..20] + "-" + h[20..]
  }

  function Text(n: nat): (s: string)
    ensures |s| == 36
  {
    Dashed(Hex(n, 32))
  }

  function Undashed(s: string): string
    requires |s| == 36
  {
    s[..8] + s[9..13] + s[14..18] + s[19..23] + s[24..]
  }

  lemma UndashedDashed(h: string)
    requires |h| == 32
    ensures Undashed(Dashed(h)) == h
  {
    var s := Dashed(h);
    assert s[..8] == h[..8];
    assert s[9..13] == h[8..12];
    assert s[14..18] == h[12..16];
    assert s[19..23] == h[16..20];
    assert s[24..] == h[20..];
  }

  /**
   The text form is well formed.
   */
  lemma TextIsUuid(n: nat)
    ensures IsUuidText(Text(n))
  {
    var h := Hex(n, 32);
    forall k | 0 <= k < 36 && !IsDashPlace(k)
      ensures IsHex(Text(n)[k])
    {
      assert Text(n)[k] in h;
    }
  }

  /**
   Reading the digits back gives the identifier, so different ones have different
   texts; letters are written small.
   */
  lemma TextReadsBack(n: nat)
    requires n < Power16(32)
    ensures var digits := Undashed(Text(n));
            && (forall c | c in digits :: IsHex(c) && !('A' <= c <= 'F'))
            && HexValue(digits) == n
  {
    UndashedDashed(Hex(n, 32));
    HexValueOfHex(n, 32);
  }

  lemma TextInjective(m: nat, n: nat)
    requires m < Power16(32) && n < Power16(32) && Text(m) == Text(n)
    ensures m == n
  {
    TextReadsBack(m);
    TextReadsBack(n);
  }
}
