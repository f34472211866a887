/** The synthetic number plate produced by the ANPR simulation: "MH", a
    two-digit number, "AB", a four-digit number. The two numbers stand for
    the program's random draws and are passed in.
 */
module Plates {

  import opened Wrappers

  predicate IsDigit(c: char) { '0' <= c <= '9' }

  function DigitChar(d: nat): (c: char)
    requires d < 10
    ensures IsDigit(c)
  {
    "0123456789"[d]
  }

  function DigitValue(c: char): (d: nat)
    requires IsDigit(c)
    ensures d < 10 && DigitChar(d) == c
  {
    (c as int - '0' as int) as nat
  }

  /** Decimal rendering of a natural number, without leading zeros. */
  function Decimal(n: nat): (s: string)
    ensures |s| >= 1
    ensures forall i :: 0 <= i < |s| ==> IsDigit(s[i])
    ensures n < 10 <==> |s| == 1
  {
    if n < 10 then [DigitChar(n)] else Decimal(n / 10) + [DigitChar(n % 10)]
  }

  /** The value of a string of decimal digits. */
  function ParseDecimal(s: string): (n: nat)
    requires forall i :: 0 <= i < |s| ==> IsDigit(s[i])
  {
    if s == [] then 0 else ParseDecimal(s[..|s| - 1]) * 10 + DigitValue(s[|s| - 1])
  }

  lemma {:induction false} ParseDecimalOfDecimal(n: nat)
    ensures ParseDecimal(Decimal(n)) == n
  {
    var s := Decimal(n);
    if n < 10 {
      assert s[..|s| - 1] == [];
    } else {
      assert s[..|s| - 1] == Decimal(n / 10);
      ParseDecimalOfDecimal(n / 10);
    }
  }

  lemma {:induction false} DecimalLength(n: nat, k: nat)
    requires k >= 1
    requires n < Pow10(k) && (k == 1 || Pow10(k - 1) <= n)
    ensures |Decimal(n)| == k
  {
    if k > 1 {
      DecimalLength(n / 10, k - 1);
    }
  }

  function Pow10(k: nat): (p: nat)
    ensures p >= 1
  {
    if k == 0 then 1 else 10 * Pow10(k - 1)
  }

  /** The plate the ANPR simulation reports for its two random draws. */
  function Plate(district: int, serial: int): (plate: string)
    requires 10 <= district <= 99 && 1000 <= serial <= 9999
    ensures |plate| == 10
    ensures plate[..2] == "MH" && plate[4..6] == "AB"
    ensures forall i :: (2 <= i < 4 || 6 <= i < 10) ==> IsDigit(plate[i])
  {
    DecimalLength(district, 2);
    DecimalLength(serial, 4);
    "MH" + Decimal(district) + "AB" + Decimal(serial)
  }

  /** Reads the two numbers back from a plate of the simulated shape. */
  function ParsePlate(plate: string): (r: Option<(nat, nat)>)
    ensures r.Some? ==> |plate| == 10 && plate[..2] == "MH" && plate[4..6] == "AB"
  {
    if |plate| == 10 && plate[..2] == "MH" && plate[4..6] == "AB"
       && (forall i :: 2 <= i < 4 ==> IsDigit(plate[i]))
       && (forall i :: 6 <= i < 10 ==> IsDigit(plate[i]))
    then Some((ParseDecimal(plate[2..4]), ParseDecimal(plate[6..])))
    else None
  }

  /** A plate determines the draws that produced it. */
  lemma {:induction false} ParsePlateOfPlate(district: int, serial: int)
    requires 10 <= district <= 99 && 1000 <= serial <= 9999
    ensures ParsePlate(Plate(district, serial)) == Some((district as nat, serial as nat))
  {
    var plate := Plate(district, serial);
    DecimalLength(district, 2);
    DecimalLength(serial, 4);
    assert plate[2..4] == Decimal(district);
    assert plate[6..] == Decimal(serial);
    ParseDecimalOfDecimal(district);
    ParseDecimalOfDecimal(serial);
  }

  /** Different draws give different plates. */
  lemma {:induction false} PlateInjective(d1: int, s1: int, d2: int, s2: int)
    requires 10 <= d1 <= 99 && 1000 <= s1 <= 9999
    requires 10 <= d2 <= 99 && 1000 <= s2 <= 9999
    requires Plate(d1, s1) == Plate(d2, s2)
    ensures d1 == d2 && s1 == s2
  {
    ParsePlateOfPlate(d1, s1);
    ParsePlateOfPlate(d2, s2);
  }
}
