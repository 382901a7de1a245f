/** Cumulative counters sampled over time, read at any moment by straight lines between the samples. */
module Profile {
  import opened Bytes

  datatype Sample = Sample(t: real, v: real)

  predicate InOrder(s: seq<Sample>) {
    forall i, j | 0 <= i < j < |s| :: s[i].t <= s[j].t
  }

  predicate Growing(s: seq<Sample>) {
    forall i, j | 0 <= i < j < |s| :: s[i].v <= s[j].v
  }

  predicate Observed(s: seq<Sample>, t: real) {
    s != [] && s[0].t <= t <= s[|s| - 1].t
  }

  // ---- The reference: walk the samples one after another

  /** The last sample at or before `t`, short of the final sample. */
  function Walk(s: seq<Sample>, t: real, i: nat): (lo: nat)
    requires i < |s|
    ensures i <= lo < |s|
    decreases |s| - i
  {
    if i + 2 < |s| && s[i + 1].t <= t then Walk(s, t, i + 1) else i
  }

  /** The straight line from `a` to `b`, read at `t`. */
  function Line(a: Sample, b: Sample, t: real): real {
    if b.t == a.t || t <= a.t then a.v else a.v + (b.v - a.v) * (t - a.t) / (b.t - a.t)
  }

  function Reference(s: seq<Sample>, t: real): Option<real> {
    if !Observed(s, t) then None
    else
      var lo := Walk(s, t, 0);
      Some(Line(s[lo], s[if lo + 1 < |s| then lo + 1 else lo], t))
  }

  /** Where the walk stops. */
  predicate Brackets(s: seq<Sample>, t: real, lo: nat) {
    lo < |s| && s[lo].t <= t && (lo + 1 < |s| || |s| == 1) && (lo + 2 < |s| ==> t < s[lo + 1].t)
  }

  lemma {:induction false} WalkBrackets(s: seq<Sample>, t: real, i: nat)
    requires InOrder(s) && i < |s| && s[i].t <= t && (i + 1 < |s| || |s| == 1)
    ensures Brackets(s, t, Walk(s, t, i))
    decreases |s| - i
  {
    if i + 2 < |s| && s[i + 1].t <= t {
      WalkBrackets(s, t, i + 1);
    }
  }

  lemma BracketsRise(s: seq<Sample>, t: real, t': real, lo: nat, lo': nat)
    requires InOrder(s) && t <= t' && Brackets(s, t, lo) && Brackets(s, t', lo')
    ensures lo <= lo'
  {
  }

  lemma OneBracket(s: seq<Sample>, t: real, lo: nat, lo': nat)
    requires InOrder(s) && Brackets(s, t, lo) && Brackets(s, t, lo')
    ensures lo == lo'
  {
    BracketsRise(s, t, t, lo, lo');
    BracketsRise(s, t, t, lo', lo);
  }

  /** The binary search finds the segment the walk finds. Between two samples the value lies on the straight line
      through them; at a sample's time it is the value of the last one of that time that has another after it, or of
      the final sample if that is alone. */
  method ValueAt(s: seq<Sample>, t: real) returns (r: Option<real>)
    requires InOrder(s)
    ensures r == Reference(s, t) && (r.Some? <==> Observed(s, t))
    ensures forall i | 0 <= i < |s| - 1 && s[i].t < t < s[i + 1].t :: OnSegment(r.value, s[i], s[i + 1], t)
    ensures forall k | Rules(s, t, k) :: r == Some(s[k].v)
  {
    forall i | 0 <= i < |s| - 1 && s[i].t < t < s[i + 1].t
      ensures Observed(s, t) && OnSegment(Reference(s, t).value, s[i], s[i + 1], t)
    {
      StraightBetween(s, t, i);
    }
    forall k | Rules(s, t, k)
      ensures Reference(s, t) == Some(s[k].v)
    {
      RuledBySample(s, t, k);
    }
    hide OnSegment, Rules;
    if s == [] || t < s[0].t || t > s[|s| - 1].t {
      return None;
    }
    var lo, hi := 0, |s| - 1;
    while hi - lo > 1
      invariant 0 <= lo <= hi < |s| && s[lo].t <= t && (lo < hi || |s| == 1)
      invariant hi < |s| - 1 ==> t < s[hi].t
    {
      var mid := (lo + hi) / 2;
      if s[mid].t <= t {
        lo := mid;
      } else {
        hi := mid;
      }
    }
    WalkBrackets(s, t, 0);
    OneBracket(s, t, lo, Walk(s, t, 0));
    return Some(Line(s[lo], s[hi], t));
  }

  // ---- What the value means

  /** The point is on the line through the two samples. */
  predicate OnSegment(v: real, a: Sample, b: Sample, t: real) {
    (v - a.v) * (b.t - a.t) == (b.v - a.v) * (t - a.t)
  }

  /** The sample that decides the value at its own time. */
  predicate Rules(s: seq<Sample>, t: real, k: int) {
    && 0 <= k < |s| && s[k].t == t
    && if k == |s| - 1 then k == 0 || s[k - 1].t < t else k + 2 < |s| ==> t < s[k + 1].t
  }

  lemma Undivided(p: real, w: real)
    requires w > 0.0
    ensures p / w * w == p
  {
  }

  lemma StraightBetween(s: seq<Sample>, t: real, i: nat)
    requires InOrder(s) && i + 1 < |s| && s[i].t < t < s[i + 1].t
    ensures Observed(s, t) && OnSegment(Reference(s, t).value, s[i], s[i + 1], t)
  {
    WalkBrackets(s, t, 0);
    OneBracket(s, t, i, Walk(s, t, 0));
    Undivided((s[i + 1].v - s[i].v) * (t - s[i].t), s[i + 1].t - s[i].t);
  }

  lemma RuledBySample(s: seq<Sample>, t: real, k: nat)
    requires InOrder(s) && Rules(s, t, k)
    ensures Reference(s, t) == Some(s[k].v)
  {
    WalkBrackets(s, t, 0);
    if k < |s| - 1 || k == 0 {
      OneBracket(s, t, k, Walk(s, t, 0));
    } else {
      OneBracket(s, t, k - 1, Walk(s, t, 0));
      LineEnds(s[k - 1], s[k]);
    }
  }

  lemma Scaled(k: real, x: real, y: real)
    requires k >= 0.0 && x <= y
    ensures k * x <= k * y
  {
  }

  lemma Divided(p: real, q: real, w: real)
    requires w > 0.0 && p <= q
    ensures p / w <= q / w
  {
  }

  lemma Cancels(d: real, w: real)
    requires w > 0.0
    ensures d * w / w == d
  {
  }

  lemma LineEnds(a: Sample, b: Sample)
    requires a.t < b.t
    ensures Line(a, b, a.t) == a.v && Line(a, b, b.t) == b.v
  {
    Cancels(b.v - a.v, b.t - a.t);
  }

  lemma FractionRises(d: real, x: real, y: real, w: real)
    requires d >= 0.0 && 0.0 <= x <= y <= w && w > 0.0
    ensures 0.0 <= d * x / w <= d * y / w <= d
  {
    Scaled(d, 0.0, x);
    Scaled(d, x, y);
    Scaled(d, y, w);
    Divided(0.0, d * x, w);
    Divided(d * x, d * y, w);
    Divided(d * y, d * w, w);
    Cancels(d, w);
  }

  lemma LineRises(a: Sample, b: Sample, t: real, t': real)
    requires a.v <= b.v && a.t <= t <= t' <= b.t
    ensures a.v <= Line(a, b, t) <= Line(a, b, t') <= b.v
  {
    if a.t < b.t {
      FractionRises(b.v - a.v, t - a.t, t' - a.t, b.t - a.t);
    }
  }

  /** No neighbour shares the sample's time. */
  predicate Alone(s: seq<Sample>, k: nat) {
    && k < |s|
    && (k > 0 ==> s[k - 1].t < s[k].t)
    && (k + 1 < |s| ==> s[k].t < s[k + 1].t)
  }

  /** At a sample whose time no neighbour shares, the value is the sample's own. */
  lemma ExactAtSamples(s: seq<Sample>, k: nat)
    requires InOrder(s) && Alone(s, k)
    ensures Reference(s, s[k].t) == Some(s[k].v)
  {
    RuledBySample(s, s[k].t, k);
  }

  /** A counter that never went backwards is read without going backwards. */
  lemma ReadingRises(s: seq<Sample>, t: real, t': real)
    requires InOrder(s) && Growing(s) && Observed(s, t) && Observed(s, t') && t <= t'
    ensures Reference(s, t).value <= Reference(s, t').value
  {
    var lo, lo' := Walk(s, t, 0), Walk(s, t', 0);
    WalkBrackets(s, t, 0);
    WalkBrackets(s, t', 0);
    BracketsRise(s, t, t', lo, lo');
    if |s| > 1 {
      var a, b, c, d := s[lo], s[lo + 1], s[lo'], s[lo' + 1];
      assert t <= b.t && t' <= d.t;
      if lo == lo' {
        LineRises(a, b, t, t');
      } else {
        LineRises(a, b, t, t);
        LineRises(c, d, t', t');
        assert b.v <= c.v;
      }
    }
  }

  // ---- Growth over a window

  function Growth(s: seq<Sample>, t0: real, t1: real): Option<real> {
    var a, b := Reference(s, t0), Reference(s, t1);
    if a.None? || b.None? || b.value < a.value then None else Some(b.value - a.value)
  }

  lemma GrowthMeans(s: seq<Sample>, t0: real, t1: real)
    requires InOrder(s)
    ensures Growth(s, t0, t1).Some? ==> Observed(s, t0) && Observed(s, t1) && Growth(s, t0, t1).value >= 0.0
    ensures Growing(s) && t0 <= t1 ==> (Growth(s, t0, t1).Some? <==> Observed(s, t0) && Observed(s, t1))
  {
    hide Walk, Line;
    if Growing(s) && t0 <= t1 {
      GrowthAdds(s, t0, t1, t1);
    }
  }

  lemma GrowthBetween(s: seq<Sample>, i: nat, j: nat)
    requires InOrder(s) && Alone(s, i) && Alone(s, j) && s[i].v <= s[j].v
    ensures Growth(s, s[i].t, s[j].t) == Some(s[j].v - s[i].v)
  {
    hide Walk, Line, Reference;
    ExactAtSamples(s, i);
    ExactAtSamples(s, j);
  }

  /** What a counter grew by over a window. Of a counter that never fell it is known exactly on the windows
      inside the observed span, and between two samples it is the difference of their values. */
  method Delta(s: seq<Sample>, t0: real, t1: real) returns (r: Option<real>)
    requires InOrder(s)
    ensures r == Growth(s, t0, t1)
    ensures r.Some? ==> Observed(s, t0) && Observed(s, t1) && r.value >= 0.0
    ensures Growing(s) && t0 <= t1 ==> (r.Some? <==> Observed(s, t0) && Observed(s, t1))
    ensures forall i: nat, j: nat | Alone(s, i) && Alone(s, j) && s[i].t == t0 && s[j].t == t1 && s[i].v <= s[j].v ::
              r == Some(s[j].v - s[i].v)
  {
    hide Reference, InOrder, Growing, Observed;
    GrowthMeans(s, t0, t1);
    forall i: nat, j: nat | Alone(s, i) && Alone(s, j) && s[i].t == t0 && s[j].t == t1 && s[i].v <= s[j].v
      ensures Growth(s, t0, t1) == Some(s[j].v - s[i].v)
    {
      GrowthBetween(s, i, j);
    }
    var a := ValueAt(s, t0);
    var b := ValueAt(s, t1);
    if a.None? || b.None? || b.value < a.value {
      return None;
    }
    return Some(b.value - a.value);
  }

  /** Growth is known on exactly the windows inside the observed span, and adjacent windows add up. */
  lemma GrowthAdds(s: seq<Sample>, t0: real, t1: real, t2: real)
    requires InOrder(s) && Growing(s) && t0 <= t1 <= t2
    ensures Growth(s, t0, t2).Some? <==> Observed(s, t0) && Observed(s, t2)
    ensures Growth(s, t0, t2).Some? ==>
              && Growth(s, t0, t1).Some? && Growth(s, t1, t2).Some?
              && Growth(s, t0, t2).value == Growth(s, t0, t1).value + Growth(s, t1, t2).value
  {
    if Observed(s, t0) && Observed(s, t2) {
      ReadingRises(s, t0, t1);
      ReadingRises(s, t1, t2);
    }
  }

  /** The growth is the same part of the samples' difference as the width is of their distance. */
  predicate InProportion(growth: real, a: Sample, b: Sample, width: real) {
    growth * (b.t - a.t) == (b.v - a.v) * width
  }

  lemma Spread(d: real, w: real, x0: real, x1: real, y0: real, y1: real)
    requires x0 * w == d * y0 && x1 * w == d * y1
    ensures (x1 - x0) * w == d * (y1 - y0)
  {
  }

  /** Between two samples a counter grows in proportion to the width of the window. */
  lemma GrowthIsProportional(s: seq<Sample>, i: nat, t0: real, t1: real)
    requires InOrder(s) && i + 1 < |s| && s[i].v <= s[i + 1].v && s[i].t < t0 <= t1 < s[i + 1].t
    ensures Growth(s, t0, t1).Some? && InProportion(Growth(s, t0, t1).value, s[i], s[i + 1], t1 - t0)
  {
    StraightBetween(s, t0, i);
    StraightBetween(s, t1, i);
    hide Reference, OnSegment, InProportion, InOrder;
    SegmentGrowth(Reference(s, t0).value, Reference(s, t1).value, s[i], s[i + 1], t0, t1);
  }

  lemma SegmentGrowth(v0: real, v1: real, a: Sample, b: Sample, t0: real, t1: real)
    requires OnSegment(v0, a, b, t0) && OnSegment(v1, a, b, t1) && a.t < b.t && a.v <= b.v && t0 <= t1
    ensures v0 <= v1 && InProportion(v1 - v0, a, b, t1 - t0)
  {
    var d, w := b.v - a.v, b.t - a.t;
    Spread(d, w, v0 - a.v, v1 - a.v, t0 - a.t, t1 - a.t);
    hide OnSegment;
    assert v1 - v0 == (v1 - a.v) - (v0 - a.v) && t1 - t0 == (t1 - a.t) - (t0 - a.t);
    Scaled(d, 0.0, t1 - t0);
    Positive(v1 - v0, w);
  }

  lemma Positive(x: real, w: real)
    requires w > 0.0 && x * w >= 0.0
    ensures x >= 0.0
  {
  }
}
