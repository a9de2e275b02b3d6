/** The try-on mockup's body measurements: a height and a weight, each moved
    in steps of 5 by two buttons and clamped to a range (140–180 cm and
    40–100 kg). The scale factors and slider widths derived from them are
    display arithmetic and are not modelled. */
module Mockup {
  import opened Arith

  datatype Body = Body(height: int, weight: int)

  const MinHeight := 140
  const MaxHeight := 180
  const MinWeight := 40
  const MaxWeight := 100
  const Step := 5

  /** The values when the mockup opens. */
  function Initial(): (b: Body)
    ensures b.height == 165 && b.weight == 55
    ensures InRange(b) && OnGrid(b)
  {
    Body(165, 55)
  }

  predicate InRange(b: Body)
  {
    MinHeight <= b.height <= MaxHeight && MinWeight <= b.weight <= MaxWeight
  }

  /** Both values sit a whole number of steps above their lower bounds. */
  predicate OnGrid(b: Body)
  {
    (b.height - MinHeight) % Step == 0 && (b.weight - MinWeight) % Step == 0
  }

  /** The four '−5' and '+5' buttons. */
  datatype Button = HeightDown | HeightUp | WeightDown | WeightUp

  function Press(b: Body, button: Button): (r: Body)
    ensures button.HeightDown? || button.HeightUp? ==> r.weight == b.weight
    ensures button.WeightDown? || button.WeightUp? ==> r.height == b.height
    ensures button.HeightDown? ==> r.height >= MinHeight && (b.height >= MinHeight + Step ==> r.height == b.height - Step)
    ensures button.HeightUp? ==> r.height <= MaxHeight && (b.height <= MaxHeight - Step ==> r.height == b.height + Step)
    ensures button.WeightDown? ==> r.weight >= MinWeight && (b.weight >= MinWeight + Step ==> r.weight == b.weight - Step)
    ensures button.WeightUp? ==> r.weight <= MaxWeight && (b.weight <= MaxWeight - Step ==> r.weight == b.weight + Step)
    ensures InRange(b) ==> InRange(r)
    ensures InRange(b) && OnGrid(b) ==> OnGrid(r)
  {
    match button
    case HeightDown => b.(height := Max(MinHeight, b.height - Step))
    case HeightUp => b.(height := Min(MaxHeight, b.height + Step))
    case WeightDown => b.(weight := Max(MinWeight, b.weight - Step))
    case WeightUp => b.(weight := Min(MaxWeight, b.weight + Step))
  }

  /** A button pressed at its own bound leaves the value where it is. */
  lemma PressAtBoundStays(b: Body)
    ensures b.height == MinHeight ==> Press(b, HeightDown) == b
    ensures b.height == MaxHeight ==> Press(b, HeightUp) == b
    ensures b.weight == MinWeight ==> Press(b, WeightDown) == b
    ensures b.weight == MaxWeight ==> Press(b, WeightUp) == b
  {
  }

  function PressAll(b: Body, buttons: seq<Button>): Body
    decreases |buttons|
  {
    if buttons == [] then b else PressAll(Press(b, buttons[0]), buttons[1..])
  }

  /** Every state reachable from an in-range, on-grid state is in range and on
      the grid: the height is 140 + 5k and the weight 40 + 5m. */
  lemma {:induction false} ReachableInRangeOnGrid(b: Body, buttons: seq<Button>)
    requires InRange(b) && OnGrid(b)
    ensures InRange(PressAll(b, buttons)) && OnGrid(PressAll(b, buttons))
    decreases |buttons|
  {
    if buttons != [] {
      ReachableInRangeOnGrid(Press(b, buttons[0]), buttons[1..]);
    }
  }

  /** The same from the mockup's opening values, written as grid positions. */
  lemma FromInitial(buttons: seq<Button>)
    ensures var b := PressAll(Initial(), buttons);
            exists k, m :: 0 <= k <= 8 && 0 <= m <= 12 && b.height == MinHeight + Step * k && b.weight == MinWeight + Step * m
  {
    ReachableInRangeOnGrid(Initial(), buttons);
    var b := PressAll(Initial(), buttons);
    var k := (b.height - MinHeight) / Step;
    var m := (b.weight - MinWeight) / Step;
    assert b.height == MinHeight + Step * k && b.weight == MinWeight + Step * m;
  }
}
