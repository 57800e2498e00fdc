/** The fixed table of the five operations and the function each one applies. */
module Options {
  import opened Types
  import opened Strings

  /** The division marker shown instead of a quotient when the divisor is zero. */
  const Infinity: string := "∞"

  /** a to the power b, exactly (Math.pow on whole numbers, without rounding). */
  function Pow(a: int, b: nat): int
  {
    if b == 0 then 1 else a * Pow(a, b - 1)
  }

  /** The exponent laws Math.pow is expected to follow: a^(m+n) = a^m * a^n. */
  lemma {:induction false} PowAdd(a: int, m: nat, n: nat)
    ensures Pow(a, m + n) == Pow(a, m) * Pow(a, n)
  {
    if m > 0 {
      PowAdd(a, m - 1, n);
      assert Pow(a, m + n) == a * Pow(a, m - 1 + n);
    }
  }

  /** A base of at least one raised to any exponent is at least one, and a
      base of at least two grows with the exponent. */
  lemma {:induction false} PowPositive(a: int, b: nat)
    requires a >= 1
    ensures Pow(a, b) >= 1
    ensures a >= 2 ==> Pow(a, b) > b
  {
    if b > 0 {
      PowPositive(a, b - 1);
      assert Pow(a, b) == a * Pow(a, b - 1);
    }
  }

  /** a / b rounded to the nearest hundredth (halves rounded up), in hundredths. */
  function RoundedHundredths(a: nat, b: nat): (h: nat)
    requires b > 0
    ensures -(b as int) <= 200 * a - 2 * b * h < b
  {
    (200 * a + b) / (2 * b)
  }

  /** Two decimal digits of a number below one hundred. */
  function TwoDigits(f: nat): (s: string)
    requires f < 100
    ensures |s| == 2 && AllDigits(s) && ParseNat(s) == f
  {
    var s := [DigitChar(f / 10), DigitChar(f % 10)];
    assert s[..1][..0] == [];
    assert ParseNat(s[..1]) == f / 10;
    s
  }

  /** What `(a / b).toFixed(2)` prints for a non-negative quotient: whole part,
      a point, and exactly two decimals. */
  function ToFixed2(a: nat, b: nat): (s: string)
    requires b > 0
    ensures |s| >= 4 && s[|s| - 3] == '.'
    ensures AllDigits(s[..|s| - 3]) && AllDigits(s[|s| - 2..])
  {
    var h := RoundedHundredths(a, b);
    var s := NatToString(h / 100) + "." + TwoDigits(h % 100);
    assert s[..|s| - 3] == NatToString(h / 100);
    assert s[|s| - 2..] == TwoDigits(h % 100);
    s
  }

  /** The value, in hundredths, of a text of the form digits '.' digit digit. */
  function ParseFixed2(s: string): nat
    requires |s| >= 4 && s[|s| - 3] == '.'
    requires AllDigits(s[..|s| - 3]) && AllDigits(s[|s| - 2..])
  {
    ParseNat(s[..|s| - 3]) * 100 + ParseNat(s[|s| - 2..])
  }

  /** The text ToFixed2 prints reads back as a / b to within half a hundredth
      (rounded half up), so the printed quotient is the nearest hundredth. */
  lemma ToFixed2Denotes(a: nat, b: nat)
    requires b > 0
    ensures var v := ParseFixed2(ToFixed2(a, b));
      -(b as int) <= 200 * a - 2 * b * v < b
  {
    var h := RoundedHundredths(a, b);
    var s := ToFixed2(a, b);
    assert s[..|s| - 3] == NatToString(h / 100);
    assert s[|s| - 2..] == TwoDigits(h % 100);
    ParseNatToString(h / 100);
    assert ParseFixed2(s) == h;
  }

  /** Deling: the quotient printed with two decimals, or the "∞" marker when
      the divisor is zero. It is total: no divisor makes it fail. */
  function GuardedDivide(a: nat, b: nat): (r: Result)
    ensures r.Str?
    ensures r == Str(Infinity) <==> b == 0
  {
    if b != 0 then Str(ToFixed2(a, b)) else Str(Infinity)
  }

  /** The five operations, in the order the generator indexes them. */
  const Table: seq<Operation> := [
    Operation("Som", "+", Plus, (a: nat, b: nat) => Num(a + b), "green"),
    Operation("Vermenigvuldiging", "×", Times, (a: nat, b: nat) => Num(a * b), "red"),
    Operation("Aftrekking", "-", Minus, (a: nat, b: nat) => Num(a - b), "blue"),
    Operation("Deling", "÷", Divide, (a: nat, b: nat) => GuardedDivide(a, b), "purple"),
    Operation("Macht", "^", Superscript, (a: nat, b: nat) => Num(Pow(a, b)), "orange")
  ]

  /** The table has five entries whose symbols, and whose names, are pairwise
      distinct. */
  lemma TableShape()
    ensures |Table| == 5
    ensures forall i, j :: 0 <= i < j < |Table| ==> Table[i].symbol != Table[j].symbol
    ensures forall i, j :: 0 <= i < j < |Table| ==> Table[i].name != Table[j].name
  {
  }

  /** What each entry's function computes on operands a and b. */
  lemma TableSemantics(a: nat, b: nat)
    ensures Table[0].func(a, b) == Num(a + b)
    ensures Table[1].func(a, b) == Num(a * b)
    ensures Table[2].func(a, b) == Num(a - b)
    ensures Table[3].func(a, b) == GuardedDivide(a, b)
    ensures Table[4].func(a, b) == Num(Pow(a, b))
  {
  }

  /** On operands of at least one, as the generator draws them, no entry of the
      table yields the "∞" marker and Macht yields at least one. */
  lemma GeneratedOperandsAreFinite(a: nat, b: nat)
    requires a >= 1 && b >= 1
    ensures forall i :: 0 <= i < |Table| ==> Table[i].func(a, b) != Str(Infinity)
    ensures Table[4].func(a, b).n >= 1
  {
    PowPositive(a, b);
    assert Table[3].func(a, b) == GuardedDivide(a, b);
  }
}
