/** The temperature bar drawn on each sensor card: a bar centred in its
    track that grows right for a positive value and left for a negative one,
    half the track wide at full scale. */
module ProgressBar {

  import opened MathOps

  /** `percent`: the magnitude of `value` as a share of `max`, clamped to
      [0, 100]. */
  function Percent(value: real, max: real): (p: real)
    requires max > 0.0
    ensures 0.0 <= p <= 100.0
    ensures Abs(value) >= max ==> p == 100.0
    ensures Abs(value) < max ==> p * max == Abs(value) * 100.0
  {
    var raw := Abs(value) / max * 100.0;
    assert Abs(value) >= max ==> raw >= 100.0 by {
      if Abs(value) >= max {
        assert Abs(value) / max >= 1.0;
      }
    }
    Min(Max(raw, 0.0), 100.0)
  }

  /** The filled part of the bar: which way it grows (`isNegative`) and its
      width as a percentage of the whole track (`percent / 2`). */
  datatype Fill = Fill(growsLeft: bool, width: real)

  function BarFill(value: real, max: real): (f: Fill)
    requires max > 0.0
    ensures f.growsLeft <==> value < 0.0
    ensures 0.0 <= f.width <= 50.0
    ensures f.width == 50.0 <==> Abs(value) >= max
    ensures f.width == 0.0 <==> value == 0.0
    ensures f.width == Percent(value, max) / 2.0
  {
    var p := Percent(value, max);
    assert Abs(value) < max ==> p < 100.0 by {
      if Abs(value) < max {
        assert p * max == Abs(value) * 100.0;
        assert Abs(value) * 100.0 < max * 100.0;
      }
    }
    Fill(value < 0.0, p / 2.0)
  }

  /** The bar depends only on the magnitude of the value. */
  lemma PercentIgnoresSign(value: real, max: real)
    requires max > 0.0
    ensures Percent(value, max) == Percent(-value, max)
  {}

  /** A larger magnitude never gives a shorter bar. */
  lemma PercentMonotone(a: real, b: real, max: real)
    requires max > 0.0 && Abs(a) <= Abs(b)
    ensures Percent(a, max) <= Percent(b, max)
  {
    DivisionMonotone(Abs(a), Abs(b), max);
  }

  lemma DivisionMonotone(x: real, y: real, d: real)
    requires d > 0.0 && x <= y
    ensures x / d <= y / d
  {
    assert y / d - x / d == (y - x) / d;
    assert (y - x) / d * d == y - x;
  }

  /** Negating the value mirrors the bar: same width, other side. */
  lemma NegationMirrorsBar(value: real, max: real)
    requires max > 0.0 && value != 0.0
    ensures BarFill(-value, max).width == BarFill(value, max).width
    ensures BarFill(-value, max).growsLeft == !BarFill(value, max).growsLeft
  {}
}
