/** The nested progress bars of nodes/lib/progress_bar.py.

    A bar maps its own progress, `current` out of `total`, onto the range
    `[rangeMin, rangeMax]` of its parent and forwards the result. The parent
    (a host progress bar, another `ProgressBar`, or a latent-preview
    callback) is modelled as the record of the values it has received. */
module ProgressBar {
  import Text

  // ---------------------------------------------------------------------
  // The arithmetic

  /** The progress level: `current / total`, or 1.0 for a total that is not
      positive. */
  function Level(current: real, total: int): (r: real)
    ensures 0 < total && 0.0 <= current <= total as real ==> 0.0 <= r <= 1.0
    ensures total <= 0 ==> r == 1.0
  {
    if total > 0 then current / total as real else 1.0
  }

  /** The value forwarded to the parent for a given level. */
  function ParentValue(rangeMin: int, rangeMax: int, level: real): real {
    rangeMin as real + level * (rangeMax - rangeMin) as real
  }

  /** `min(value, total)`. */
  function Capped(value: real, total: int): (r: real)
    ensures r <= total as real && r <= value
    ensures r == value || r == total as real
  {
    if value <= total as real then value else total as real
  }

  /** A level between 0 and 1 lands inside the parent's range. */
  lemma ParentValueInRange(rangeMin: int, rangeMax: int, level: real)
    requires rangeMin <= rangeMax && 0.0 <= level <= 1.0
    ensures rangeMin as real <= ParentValue(rangeMin, rangeMax, level) <= rangeMax as real
  {
    var width := (rangeMax - rangeMin) as real;
    assert 0.0 <= level * width <= width by {
      assert level * width <= 1.0 * width;
    }
  }

  /** Level 0 is the start of the range and level 1 its end. */
  lemma ParentValueEnds(rangeMin: int, rangeMax: int)
    ensures ParentValue(rangeMin, rangeMax, 0.0) == rangeMin as real
    ensures ParentValue(rangeMin, rangeMax, 1.0) == rangeMax as real
  {
  }

  /** A non-negative value with a positive total is forwarded inside the
      parent's range. */
  lemma ForwardedInRange(rangeMin: int, rangeMax: int, value: real, total: int)
    requires rangeMin <= rangeMax && 0.0 <= value && 0 < total
    ensures var v := ParentValue(rangeMin, rangeMax, Level(Capped(value, total), total));
            rangeMin as real <= v <= rangeMax as real
  {
    ParentValueInRange(rangeMin, rangeMax, Level(Capped(value, total), total));
  }

  /** The preview forwards `int()` of the same value; it stays inside the
      range, whose ends are integers. */
  lemma TruncatedInRange(rangeMin: int, rangeMax: int, v: real)
    requires rangeMin as real <= v <= rangeMax as real
    ensures rangeMin <= Text.Trunc(v) <= rangeMax
  {
  }

  // ---------------------------------------------------------------------
  // The bars

  /** `ProgressBar`. */
  class Bar {
    var hasParent: bool
    var rangeMin: int
    var rangeMax: int
    var current: real
    var total: int
    /** The values the parent has received, oldest first. */
    var sent: seq<real>

    /** `ProgressBar(steps, parent=(parent, range_min, range_max))`;
        `hasParent` is false for a falsy parent such as `None`. */
    constructor(steps: int, hasParent: bool, rangeMin: int, rangeMax: int)
      ensures this.hasParent == hasParent && this.rangeMin == rangeMin && this.rangeMax == rangeMax
      ensures current == 0.0 && total == steps && sent == []
    {
      this.hasParent := hasParent;
      this.rangeMin := rangeMin;
      this.rangeMax := rangeMax;
      current := 0.0;
      total := steps;
      sent := [];
    }

    /** `ProgressBar.from_comfyui(steps)`: a bar whose range is the host
        bar's `(0, steps)`. */
    static method FromComfyUI(steps: int) returns (b: Bar)
      ensures fresh(b)
      ensures b.hasParent && b.rangeMin == 0 && b.rangeMax == steps
      ensures b.current == 0.0 && b.total == steps && b.sent == []
    {
      b := new Bar(steps, true, 0, steps);
    }

    /** `update_absolute(value, total)`: a `None` or zero `total` keeps the
        previous one; `current` becomes `min(value, total)` and the parent,
        if any, receives the matching point of its range. */
    method UpdateAbsolute(value: real, newTotal: int)
      modifies this
      ensures total == if newTotal != 0 then newTotal else old(total)
      ensures current == Capped(value, total)
      ensures sent == old(sent) + if hasParent then [ParentValue(rangeMin, rangeMax, Level(current, total))] else []
      ensures hasParent == old(hasParent) && rangeMin == old(rangeMin) && rangeMax == old(rangeMax)
      ensures current <= total as real
      ensures hasParent && total > 0 && 0.0 <= value && rangeMin <= rangeMax ==>
                |sent| > 0 && rangeMin as real <= sent[|sent| - 1] <= rangeMax as real
    {
      if newTotal != 0 {
        total := newTotal;
      }
      current := Capped(value, total);
      if hasParent {
        sent := sent + [ParentValue(rangeMin, rangeMax, Level(current, total))];
        if total > 0 && 0.0 <= value && rangeMin <= rangeMax {
          ForwardedInRange(rangeMin, rangeMax, value, total);
        }
      }
    }

    /** `update(value)`: advance by `value` from the current position. */
    method Update(value: real)
      modifies this
      ensures total == old(total)
      ensures current == Capped(old(current) + value, total)
      ensures sent == old(sent) + if hasParent then [ParentValue(rangeMin, rangeMax, Level(current, total))] else []
      ensures hasParent == old(hasParent) && rangeMin == old(rangeMin) && rangeMax == old(rangeMax)
    {
      UpdateAbsolute(current + value, 0);
    }
  }

  /** `ProgressPreview`: the same mapping for a latent-preview callback, which
      receives `int()` of the value. */
  class Preview {
    var hasParent: bool
    var rangeMin: int
    var rangeMax: int
    var current: int
    var total: int
    /** The steps the callback has received, oldest first. */
    var sent: seq<int>

    /** `ProgressPreview(steps, parent=(callback, range_min, range_max))`.
        `current` is only set by the first call. */
    constructor(steps: int, hasParent: bool, rangeMin: int, rangeMax: int)
      ensures this.hasParent == hasParent && this.rangeMin == rangeMin && this.rangeMax == rangeMax
      ensures total == steps && sent == []
    {
      this.hasParent := hasParent;
      this.rangeMin := rangeMin;
      this.rangeMax := rangeMax;
      total := steps;
      sent := [];
    }

    /** `preview(step, x0, x, total_steps)`. */
    method Call(step: int, totalSteps: int)
      modifies this
      ensures total == if totalSteps != 0 then totalSteps else old(total)
      ensures current == if step <= total then step else total
      ensures sent == old(sent) +
                if hasParent then [Text.Trunc(ParentValue(rangeMin, rangeMax, Level(current as real, total)))] else []
      ensures hasParent == old(hasParent) && rangeMin == old(rangeMin) && rangeMax == old(rangeMax)
      ensures hasParent && total > 0 && 0 <= step && rangeMin <= rangeMax ==>
                |sent| > 0 && rangeMin <= sent[|sent| - 1] <= rangeMax
    {
      if totalSteps != 0 {
        total := totalSteps;
      }
      current := if step <= total then step else total;
      if hasParent {
        var v := ParentValue(rangeMin, rangeMax, Level(current as real, total));
        sent := sent + [Text.Trunc(v)];
        if total > 0 && 0 <= step && rangeMin <= rangeMax {
          assert current as real == Capped(step as real, total);
          ForwardedInRange(rangeMin, rangeMax, step as real, total);
          TruncatedInRange(rangeMin, rangeMax, v);
        }
      }
    }
  }

  /** For a bar made by `from_comfyui(steps)`, whose range is `(0, steps)`,
      the value forwarded is the capped position itself. */
  lemma ComfyRangeForwardsPosition(steps: int, value: real)
    requires steps > 0
    ensures ParentValue(0, steps, Level(Capped(value, steps), steps)) == Capped(value, steps)
  {
    var c := Capped(value, steps);
    assert Level(c, steps) * steps as real == c;
  }
}
