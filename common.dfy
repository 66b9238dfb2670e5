/** Values shared by every component of the bot: optional results, the side of a
    position as the source spells it, and the decimal rounding used on prices and sizes. */
module Common {

  datatype Option<+T> = None | Some(value: T)

  /** The side a position-type string stands for once it has been lower-cased. */
  datatype Side = Buy | Sell | Unrecognized

  /** Lower-cases the ASCII letters of a string and leaves every other character alone. */
  function Lower(s: string): (r: string)
    ensures |r| == |s|
    ensures forall i :: 0 <= i < |s| ==> r[i] == LowerChar(s[i])
  {
    if s == [] then [] else [LowerChar(s[0])] + Lower(s[1..])
  }

  function LowerChar(c: char): (r: char)
    ensures 'A' <= c <= 'Z' ==> r as int == c as int + 32
    ensures !('A' <= c <= 'Z') ==> r == c
  {
    if 'A' <= c <= 'Z' then (c as int + 32) as char else c
  }

  /** `position_type.lower() == 'buy'` / `== 'sell'`, the test every component repeats. */
  function SideOf(positionType: string): (side: Side)
    ensures side == Buy <==> Lower(positionType) == "buy"
    ensures side == Sell <==> Lower(positionType) == "sell"
  {
    var l := Lower(positionType);
    if l == "buy" then Buy else if l == "sell" then Sell else Unrecognized
  }

  /** Any string whose lower-cased form is one of the two side names is recognised. */
  lemma RecognisedSides()
    ensures SideOf("buy") == Buy && SideOf("sell") == Sell
    ensures SideOf("BUY") == Buy && SideOf("Sell") == Sell
    ensures SideOf("long") == Unrecognized
  {
    assert Lower("BUY") == "buy";
    assert Lower("Sell") == "sell";
    assert Lower("long") == "long";
  }

  function Pow10(digits: nat): (p: nat)
    ensures p >= 1
  {
    if digits == 0 then 1 else 10 * Pow10(digits - 1)
  }

  /** Half a unit in the last kept decimal place: the largest error `Round` can make. */
  function HalfUnit(digits: nat): (h: real)
    ensures 0.0 < h <= 0.5
  {
    1.0 / (2.0 * Pow10(digits) as real)
  }

  /** Python's `round(x, digits)` taken on the exact value of `x`: the nearest multiple of
      10^-digits, a tie going to the even multiple. What the rest of the model relies on is
      only the error bound below. */
  function Round(x: real, digits: nat): (r: real)
    ensures x - HalfUnit(digits) <= r <= x + HalfUnit(digits)
  {
    var scale := Pow10(digits) as real;
    var y := x * scale;
    var f := y.Floor;
    var frac := y - f as real;
    var n := if frac > 0.5 then f + 1
             else if frac < 0.5 then f
             else if f % 2 == 0 then f else f + 1;
    assert -0.5 <= n as real - y <= 0.5;
    ScaledErrorBound(n as real, x, scale);
    n as real / scale
  }

  lemma ScaledErrorBound(n: real, x: real, scale: real)
    requires scale >= 1.0
    requires -0.5 <= n - x * scale <= 0.5
    ensures x - 1.0 / (2.0 * scale) <= n / scale <= x + 1.0 / (2.0 * scale)
  {
    assert n / scale - x == (n - x * scale) / scale;
    assert 0.5 / scale == 1.0 / (2.0 * scale);
  }
}
