/** Exact-rational stand-ins for the source's number handling: `Math.random()` draws and
    `Number.prototype.toFixed`. Values are `real`s, so the rounding is the one `toFixed`
    defines for the exact value, not the one binary floating point happens to produce. */
module Decimal {
  import Text

  /** One result of `Math.random()`: a number in [0, 1). */
  type Draw = u: real | 0.0 <= u < 1.0

  /** The integer `toFixed` picks for an exact value: the nearest one, and on a tie the
      one of larger magnitude (the sign is split off first). */
  function Nearest(y: real): (n: int)
    ensures (n as real) - 0.5 <= y <= (n as real) + 0.5
    ensures y >= 0.0 ==> n >= 0
  {
    if y >= 0.0 then (y + 0.5).Floor else -((-y + 0.5).Floor)
  }

  /** `x` is a whole number of hundredths. */
  predicate Hundredths(x: real)
  {
    (x * 100.0).Floor as real == x * 100.0
  }

  /** `parseFloat(x.toFixed(2))`: `x` rounded to the nearest hundredth. */
  function Round2(x: real): (r: real)
    ensures Hundredths(r)
    ensures r - 0.005 <= x <= r + 0.005
  {
    Nearest(x * 100.0) as real / 100.0
  }

  /** Rounding leaves a value that already has two decimals unchanged. */
  lemma RoundKeepsHundredths(x: real)
    requires Hundredths(x)
    ensures Round2(x) == x
  {
    var k := (x * 100.0).Floor;
    if x >= 0.0 {
      assert (x * 100.0 + 0.5).Floor == k;
    } else {
      assert (-x * 100.0 + 0.5).Floor == -k;
    }
  }

  /** Rounding a non-negative value stays inside any interval whose ends have two decimals. */
  lemma RoundWithin(x: real, lo: real, hi: real)
    requires 0.0 <= lo <= x <= hi
    requires Hundredths(lo) && Hundredths(hi)
    ensures lo <= Round2(x) <= hi
  {
    var l := (lo * 100.0).Floor;
    var h := (hi * 100.0).Floor;
    assert (lo * 100.0 + 0.5).Floor == l;
    assert (hi * 100.0 + 0.5).Floor == h;
    assert l <= (x * 100.0 + 0.5).Floor <= h;
  }

  /** `x.toFixed(places)` for one or two fraction digits, the only precisions the
      source uses: optional minus sign, whole part, point, zero-padded fraction. */
  function Fixed(x: real, places: nat): string
    requires 1 <= places <= 2
  {
    var n := if places == 1 then Nearest(x * 10.0) else Nearest(x * 100.0);
    var m: nat := if n < 0 then -n else n;
    var sign := if x < 0.0 then "-" else "";
    var whole: nat := if places == 1 then m / 10 else m / 100;
    var frac: nat := if places == 1 then m % 10 else m % 100;
    sign + Text.NatText(whole) + "." + Text.PadLeft(Text.NatText(frac), places, '0')
  }

  /** `(30).toFixed(2)` is "30.00". */
  lemma FixedThirty()
    ensures Fixed(30.0, 2) == "30.00"
  {
    assert Nearest(30.0 * 100.0) == 3000;
    assert Text.NatText(30) == "30" by {
      assert Text.NatText(3) == "3";
      assert Text.Digit(0) == '0';
    }
    assert Text.NatText(0) == "0";
    assert Text.PadLeft("0", 2, '0') == "00";
  }
}
