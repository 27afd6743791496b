/** The built-in conversion functions offered to mapping expressions, the
    merge of expression environments, and the opaque compile-and-run step
    that uses them. Float arithmetic is modelled over `real`. */
module Expressions {
  import opened Wrappers
  import opened Message

  /** The errors the built-ins and the environment merge report. Positions
      are the list indices the source's messages name. */
  datatype Error =
    | LengthMismatch(heights: nat, volumes: nat)
    | NotConvertible(position: nat)
    | HeightsNotIncreasing(position: nat)
    | VolumesNotIncreasing(position: nat)
    | DuplicateKeys(keys: set<string>)
    | ExpressionFailed(reason: string)

  /** The Go integer and float kinds a list element may dynamically have. */
  datatype IntKind = Int | Uint | Int8 | Uint8 | Int16 | Uint16 | Int32 | Uint32 | Int64 | Uint64
  datatype FloatKind = Float32 | Float64

  /** One element of an `[]interface{}` handed to a built-in by an
      expression program: a number of some Go kind, or anything else. */
  datatype Element =
    | IntElem(ikind: IntKind, i: int)
    | FloatElem(fkind: FloatKind, f: real)
    | Other(typeName: string)

  predicate IsNumeric(e: Element) {
    !e.Other?
  }

  /** The float64 an element converts to (exactly, over the reals). */
  function AsFloat(e: Element): real
    requires IsNumeric(e)
  {
    match e
    case IntElem(_, i) => i as real
    case FloatElem(_, f) => f
  }

  // ---------------------------------------------------------------------------
  // currentToRatio and pressureToHeight

  /** The 4-20 mA current loop reading (in µA) as a ratio: 4000 µA is 0
      and 20000 µA is 1. */
  function CurrentToRatio(current: real): (ratio: real)
    ensures 16000.0 * ratio + 4000.0 == current
  {
    (current - 4000.0) / 16000.0
  }

  lemma CurrentToRatioCalibration()
    ensures CurrentToRatio(4000.0) == 0.0
    ensures CurrentToRatio(8000.0) == 0.25
    ensures CurrentToRatio(12000.0) == 0.5
    ensures CurrentToRatio(16000.0) == 0.75
    ensures CurrentToRatio(20000.0) == 1.0
  {
  }

  lemma CurrentToRatioMonotone(a: real, b: real)
    requires a <= b
    ensures CurrentToRatio(a) <= CurrentToRatio(b)
  {
  }

  /** Acceleration due to gravity used by pressureToHeight, in m/s². */
  const Gravity: real := 9.8

  /** The liquid column height (m) for a pressure (Pa) and density
      (kg/m³). A zero density makes Go's float division produce an
      infinity or NaN; the model returns None for that non-finite case. */
  function PressureToHeight(pressure: real, density: real): (height: Option<real>)
    ensures height.Some? <==> density != 0.0
    ensures height.Some? ==> height.value * (density * Gravity) == pressure
  {
    if density == 0.0 then None else Some(pressure / (density * Gravity))
  }

  // ---------------------------------------------------------------------------
  // ListToFloats

  /** Converts every element to a float64, failing at the first element
      that is not one of the twelve Go numeric kinds. */
  function ListToFloats(input: seq<Element>): (r: Result<seq<real>, Error>)
    ensures r.Ok? <==> forall i :: 0 <= i < |input| ==> IsNumeric(input[i])
    ensures r.Ok? ==> |r.value| == |input|
    ensures r.Ok? ==> forall i :: 0 <= i < |input| ==> IsNumeric(input[i]) && r.value[i] == AsFloat(input[i])
    ensures r.Err? ==> r.error.NotConvertible? && r.error.position < |input|
    ensures r.Err? ==> !IsNumeric(input[r.error.position])
    ensures r.Err? ==> forall j :: 0 <= j < r.error.position ==> IsNumeric(input[j])
    decreases |input|
  {
    if |input| == 0 then
      Ok([])
    else if !IsNumeric(input[0]) then
      Err(NotConvertible(0))
    else
      match ListToFloats(input[1..])
      case Err(e) => Err(NotConvertible(e.position + 1))
      case Ok(rest) => Ok([AsFloat(input[0])] + rest)
  }

  // ---------------------------------------------------------------------------
  // heightToVolume

  /** `s` strictly increases from position `j - 1` to position `j`. */
  predicate StepUp(s: seq<real>, j: int)
    requires 0 < j < |s|
  {
    s[j - 1] < s[j]
  }

  /** An interpolation table: equal lengths, both columns strictly increasing. */
  predicate ValidTable(hs: seq<real>, vs: seq<real>) {
    && |hs| == |vs|
    && (forall j :: 0 < j < |hs| ==> StepUp(hs, j))
    && (forall j :: 0 < j < |vs| ==> StepUp(vs, j))
  }

  /** The validation loop from position `i` on: the first position whose
      height, or else whose volume, does not exceed its predecessor's. */
  function CheckIncreasing(hs: seq<real>, vs: seq<real>, i: nat): (r: Option<Error>)
    requires |hs| == |vs| && 1 <= i
    ensures r.None? <==> forall j :: i <= j < |hs| ==> StepUp(hs, j) && StepUp(vs, j)
    ensures r.Some? ==> r.value.HeightsNotIncreasing? || r.value.VolumesNotIncreasing?
    ensures r.Some? ==> i <= r.value.position < |hs|
    ensures r.Some? ==> forall j :: i <= j < r.value.position ==> StepUp(hs, j) && StepUp(vs, j)
    ensures r.Some? ==> (r.value.HeightsNotIncreasing? <==> !StepUp(hs, r.value.position))
    decreases |hs| - i
  {
    if i >= |hs| then None
    else if !StepUp(hs, i) then Some(HeightsNotIncreasing(i))
    else if !StepUp(vs, i) then Some(VolumesNotIncreasing(i))
    else CheckIncreasing(hs, vs, i + 1)
  }

  /** The linear interpolation between (h0, v0) and (h1, v1) at x. */
  function Lerp(x: real, h0: real, h1: real, v0: real, v1: real): real
    requires h0 < h1
  {
    (x - h0) / (h1 - h0) * (v1 - v0) + v0
  }

  /** The lookup loop of heightToVolume from position `i`, with `acc` the
      result variable's current value (0 before the first iteration). */
  function Scan(x: real, hs: seq<real>, vs: seq<real>, i: nat, acc: real): real
    requires |hs| == |vs| && i <= |hs|
    requires forall j :: 0 < j < |hs| ==> StepUp(hs, j)
    decreases |hs| - i
  {
    if i == |hs| then acc
    else if x < hs[i] then
      (if i == 0 then acc else assert StepUp(hs, i); Lerp(x, hs[i - 1], hs[i], vs[i - 1], vs[i]))
    else Scan(x, hs, vs, i + 1, vs[i])
  }

  /** The volume (m³) for a measured height (m) plus the sensor's offset,
      looked up in a (height, volume) table given as dynamically typed lists. */
  function HeightToVolume(height: real, sensorOffset: real, heights: seq<Element>, volumes: seq<Element>): (r: Result<real, Error>)
    ensures |heights| != |volumes| ==> r == Err(LengthMismatch(|heights|, |volumes|))
    ensures |heights| == |volumes| && ListToFloats(heights).Err? ==> r == Err(ListToFloats(heights).error)
    ensures |heights| == |volumes| && ListToFloats(heights).Ok? && ListToFloats(volumes).Err? ==> r == Err(ListToFloats(volumes).error)
    ensures r.Ok? <==> && ListToFloats(heights).Ok? && ListToFloats(volumes).Ok?
                       && ValidTable(ListToFloats(heights).value, ListToFloats(volumes).value)
    ensures r.Err? && (r.error.HeightsNotIncreasing? || r.error.VolumesNotIncreasing?) ==>
              var hs := ListToFloats(heights).value;
              var vs := ListToFloats(volumes).value;
              var p := r.error.position;
              && 0 < p < |hs| == |vs|
              && (forall j :: 0 < j < p ==> StepUp(hs, j) && StepUp(vs, j))
              && (r.error.HeightsNotIncreasing? <==> !StepUp(hs, p))
    ensures r.Ok? ==> r.value == Scan(height + sensorOffset, ListToFloats(heights).value, ListToFloats(volumes).value, 0, 0.0)
  {
    if |heights| != |volumes| then
      Err(LengthMismatch(|heights|, |volumes|))
    else
      match ListToFloats(heights)
      case Err(e) => Err(e)
      case Ok(hs) =>
        match ListToFloats(volumes)
        case Err(e) => Err(e)
        case Ok(vs) =>
          match CheckIncreasing(hs, vs, 1)
          case Some(e) => Err(e)
          case None => Ok(Scan(height + sensorOffset, hs, vs, 0, 0.0))
  }

  /** A table of plain float64s: every element a `FloatElem(Float64, _)`. */
  function Float64s(xs: seq<real>): (r: seq<Element>)
    ensures |r| == |xs|
    ensures forall i :: 0 <= i < |xs| ==> r[i] == FloatElem(Float64, xs[i])
  {
    seq(|xs|, i requires 0 <= i < |xs| => FloatElem(Float64, xs[i]))
  }

  lemma Float64sConvertBack(xs: seq<real>)
    ensures ListToFloats(Float64s(xs)) == Ok(xs)
  {
    var r := ListToFloats(Float64s(xs));
    assert r.Ok?;
    assert r.value == xs;
  }

  /** Lists that convert to a valid table pass every check, and
      heightToVolume is the lookup loop over that table. */
  lemma HeightToVolumeOnTable(height: real, sensorOffset: real, heights: seq<Element>, volumes: seq<Element>, hs: seq<real>, vs: seq<real>)
    requires ListToFloats(heights) == Ok(hs) && ListToFloats(volumes) == Ok(vs)
    requires ValidTable(hs, vs)
    ensures HeightToVolume(height, sensorOffset, heights, volumes) == Ok(Scan(height + sensorOffset, hs, vs, 0, 0.0))
  {
    assert CheckIncreasing(hs, vs, 1).None?;
  }

  /** A table of plain float64s is one such pair of lists. */
  lemma Float64sTable(height: real, sensorOffset: real, hs: seq<real>, vs: seq<real>)
    requires ValidTable(hs, vs)
    ensures HeightToVolume(height, sensorOffset, Float64s(hs), Float64s(vs)) == Ok(Scan(height + sensorOffset, hs, vs, 0, 0.0))
  {
    Float64sConvertBack(hs);
    Float64sConvertBack(vs);
    HeightToVolumeOnTable(height, sensorOffset, Float64s(hs), Float64s(vs), hs, vs);
  }

  // --- facts about the lookup

  lemma IncreasingPair(s: seq<real>, a: int, b: int)
    requires forall j :: 0 < j < |s| ==> StepUp(s, j)
    requires 0 <= a < b < |s|
    ensures s[a] < s[b]
    decreases b - a
  {
    assert StepUp(s, b);
    if a + 1 < b {
      IncreasingPair(s, a, b - 1);
    }
  }

  lemma LerpBounds(x: real, h0: real, h1: real, v0: real, v1: real)
    requires h0 <= x < h1 && v0 < v1
    ensures v0 <= Lerp(x, h0, h1, v0, v1) < v1
  {
    var d, w := h1 - h0, v1 - v0;
    var t := (x - h0) / d;
    assert t * d == x - h0;
    if t >= 1.0 {
      MulMonotone(1.0, t, d);
    }
    assert 0.0 <= t < 1.0;
    MulMonotone(0.0, t, w);
    MulStrict(t, 1.0, w);
    assert Lerp(x, h0, h1, v0, v1) == t * w + v0;
  }

  lemma MulMonotone(a: real, b: real, c: real)
    requires a <= b && 0.0 <= c
    ensures a * c <= b * c
  {
  }

  lemma MulStrict(a: real, b: real, c: real)
    requires a < b && 0.0 < c
    ensures a * c < b * c
  {
  }

  lemma LerpMonotone(x1: real, x2: real, h0: real, h1: real, v0: real, v1: real)
    requires h0 < h1 && v0 < v1 && x1 <= x2
    ensures Lerp(x1, h0, h1, v0, v1) <= Lerp(x2, h0, h1, v0, v1)
  {
    var t1 := (x1 - h0) / (h1 - h0);
    var t2 := (x2 - h0) / (h1 - h0);
    assert t2 - t1 == (x2 - x1) / (h1 - h0);
    assert t1 <= t2;
    assert t1 * (v1 - v0) <= t2 * (v1 - v0);
  }

  /** Once the scan has passed every height up to `i - 1` ≤ x < hs[i], it
      returns the interpolation on segment i. */
  lemma {:induction false} ScanInSegment(x: real, hs: seq<real>, vs: seq<real>, k: nat, acc: real, i: nat)
    requires ValidTable(hs, vs)
    requires k <= i && 0 < i < |hs| && hs[i - 1] <= x < hs[i]
    ensures Scan(x, hs, vs, k, acc) == Lerp(x, hs[i - 1], hs[i], vs[i - 1], vs[i])
    decreases i - k
  {
    if k < i {
      if k < i - 1 {
        IncreasingPair(hs, k, i - 1);
      }
      assert !(x < hs[k]);
      ScanInSegment(x, hs, vs, k + 1, vs[k], i);
    }
  }

  lemma {:induction false} ScanAboveRange(x: real, hs: seq<real>, vs: seq<real>, k: nat, acc: real)
    requires ValidTable(hs, vs)
    requires 0 < |hs| && k < |hs| && x >= hs[|hs| - 1]
    ensures Scan(x, hs, vs, k, acc) == vs[|vs| - 1]
    decreases |hs| - k
  {
    if k < |hs| - 1 {
      IncreasingPair(hs, k, |hs| - 1);
    }
    assert !(x < hs[k]);
    if k < |hs| - 1 {
      ScanAboveRange(x, hs, vs, k + 1, vs[k]);
    }
  }

  /** Below the first tabulated height the lookup yields 0, not the first
      volume; an empty table yields 0 for every height. */
  lemma HeightToVolumeBelowRange(height: real, sensorOffset: real, heights: seq<Element>, volumes: seq<Element>, hs: seq<real>, vs: seq<real>)
    requires ListToFloats(heights) == Ok(hs) && ListToFloats(volumes) == Ok(vs)
    requires ValidTable(hs, vs)
    requires |hs| == 0 || height + sensorOffset < hs[0]
    ensures HeightToVolume(height, sensorOffset, heights, volumes) == Ok(0.0)
  {
    HeightToVolumeOnTable(height, sensorOffset, heights, volumes, hs, vs);
  }

  /** Inside segment i of a valid table the result is the linear
      interpolation between its end points, and lies between their volumes. */
  lemma HeightToVolumeInSegment(height: real, sensorOffset: real, heights: seq<Element>, volumes: seq<Element>, hs: seq<real>, vs: seq<real>, i: nat)
    requires ListToFloats(heights) == Ok(hs) && ListToFloats(volumes) == Ok(vs)
    requires ValidTable(hs, vs)
    requires 0 < i < |hs| && hs[i - 1] <= height + sensorOffset < hs[i]
    ensures HeightToVolume(height, sensorOffset, heights, volumes)
            == Ok(Lerp(height + sensorOffset, hs[i - 1], hs[i], vs[i - 1], vs[i]))
    ensures vs[i - 1] <= HeightToVolume(height, sensorOffset, heights, volumes).value < vs[i]
  {
    HeightToVolumeOnTable(height, sensorOffset, heights, volumes, hs, vs);
    ScanInSegment(height + sensorOffset, hs, vs, 0, 0.0, i);
    assert StepUp(vs, i);
    LerpBounds(height + sensorOffset, hs[i - 1], hs[i], vs[i - 1], vs[i]);
  }

  /** At or above the last tabulated height the result is the last volume. */
  lemma HeightToVolumeAboveRange(height: real, sensorOffset: real, heights: seq<Element>, volumes: seq<Element>, hs: seq<real>, vs: seq<real>)
    requires ListToFloats(heights) == Ok(hs) && ListToFloats(volumes) == Ok(vs)
    requires ValidTable(hs, vs)
    requires 0 < |hs| && height + sensorOffset >= hs[|hs| - 1]
    ensures HeightToVolume(height, sensorOffset, heights, volumes) == Ok(vs[|vs| - 1])
  {
    HeightToVolumeOnTable(height, sensorOffset, heights, volumes, hs, vs);
    ScanAboveRange(height + sensorOffset, hs, vs, 0, 0.0);
  }

  /** Inside segment i the lookup lies between the segment's two volumes. */
  lemma ScanSegmentBounds(x: real, hs: seq<real>, vs: seq<real>, i: nat)
    requires ValidTable(hs, vs)
    requires 0 < i < |hs| && hs[i - 1] <= x < hs[i]
    ensures vs[i - 1] <= Scan(x, hs, vs, 0, 0.0) < vs[i]
  {
    ScanInSegment(x, hs, vs, 0, 0.0, i);
    assert StepUp(vs, i);
    LerpBounds(x, hs[i - 1], hs[i], vs[i - 1], vs[i]);
  }

  /** From the first tabulated height upwards the lookup never decreases. */
  lemma ScanMonotone(x1: real, x2: real, hs: seq<real>, vs: seq<real>)
    requires ValidTable(hs, vs)
    requires 0 < |hs| && hs[0] <= x1 <= x2
    ensures Scan(x1, hs, vs, 0, 0.0) <= Scan(x2, hs, vs, 0, 0.0)
  {
    var n := |hs|;
    var i1 := SegmentOf(x1, hs);
    var i2 := SegmentOf(x2, hs);
    if i1 == n {
      ScanAboveRange(x1, hs, vs, 0, 0.0);
      ScanAboveRange(x2, hs, vs, 0, 0.0);
    } else if i2 == n {
      ScanSegmentBounds(x1, hs, vs, i1);
      ScanAboveRange(x2, hs, vs, 0, 0.0);
      if i1 < n - 1 {
        IncreasingPair(vs, i1, n - 1);
      }
    } else if i1 == i2 {
      ScanInSegment(x1, hs, vs, 0, 0.0, i1);
      ScanInSegment(x2, hs, vs, 0, 0.0, i1);
      assert StepUp(hs, i1) && StepUp(vs, i1);
      LerpMonotone(x1, x2, hs[i1 - 1], hs[i1], vs[i1 - 1], vs[i1]);
    } else {
      if i2 < i1 {
        if i2 < i1 - 1 {
          IncreasingPair(hs, i2, i1 - 1);
        }
        assert false;
      }
      ScanSegmentBounds(x1, hs, vs, i1);
      ScanSegmentBounds(x2, hs, vs, i2);
      if i1 < i2 - 1 {
        IncreasingPair(vs, i1, i2 - 1);
      }
    }
  }

  /** From the first tabulated height upwards heightToVolume never decreases. */
  lemma HeightToVolumeMonotone(h1: real, h2: real, sensorOffset: real, heights: seq<Element>, volumes: seq<Element>, hs: seq<real>, vs: seq<real>)
    requires ListToFloats(heights) == Ok(hs) && ListToFloats(volumes) == Ok(vs)
    requires ValidTable(hs, vs)
    requires 0 < |hs| && hs[0] <= h1 + sensorOffset && h1 <= h2
    ensures HeightToVolume(h1, sensorOffset, heights, volumes).Ok?
    ensures HeightToVolume(h1, sensorOffset, heights, volumes).value
            <= HeightToVolume(h2, sensorOffset, heights, volumes).value
  {
    HeightToVolumeOnTable(h1, sensorOffset, heights, volumes, hs, vs);
    HeightToVolumeOnTable(h2, sensorOffset, heights, volumes, hs, vs);
    ScanMonotone(h1 + sensorOffset, h2 + sensorOffset, hs, vs);
  }

  /** The segment a height at or above the first table height falls in:
      i with hs[i-1] ≤ x < hs[i], or |hs| when x is at or above the last. */
  function SegmentOf(x: real, hs: seq<real>): (i: nat)
    requires 0 < |hs| && hs[0] <= x
    ensures 0 < i <= |hs|
    ensures i < |hs| ==> hs[i - 1] <= x < hs[i]
    ensures i == |hs| ==> x >= hs[|hs| - 1]
    ensures forall j :: 0 <= j < i ==> hs[j] <= x
    decreases |hs|
  {
    if |hs| == 1 || x < hs[1] then 1
    else
      var tail := hs[1..];
      assert forall j :: 0 < j < |hs| ==> hs[j] == tail[j - 1];
      SegmentOf(x, tail) + 1
  }

  /** In an increasing table the segment is the only one: no other
      position k has hs[k-1] ≤ x < hs[k]. */
  lemma SegmentUnique(x: real, hs: seq<real>, k: nat)
    requires forall j :: 0 < j < |hs| ==> StepUp(hs, j)
    requires 0 < |hs| && hs[0] <= x
    requires 0 < k < |hs| && hs[k - 1] <= x < hs[k]
    ensures SegmentOf(x, hs) == k
  {
    var i := SegmentOf(x, hs);
    if i < k - 1 {
      IncreasingPair(hs, i, k - 1);
    }
  }

  // ---------------------------------------------------------------------------
  // Environments and running expressions

  /** A value an expression environment binds a name to. */
  datatype EnvValue =
    | Builtin(function_name: string)
    | Num(x: real)
    | Str(s: string)
    | Bool(b: bool)
    | List(items: seq<Element>)

  type Environment = map<string, EnvValue>

  /** The built-ins every expression environment starts with. */
  const BaseEnvironment: Environment := map[
    "currentToRatio" := Builtin("currentToRatio"),
    "pressureToHeight" := Builtin("pressureToHeight"),
    "heightToVolume" := Builtin("heightToVolume")
  ]

  /** Merges `right` into a copy of `left`; any key of `right` already in
      `left` is an error. The source reports one colliding key, whichever
      Go's randomised map iteration meets first; the model reports the set
      of colliding keys that key is drawn from. */
  function MergeEnvironments(left: Environment, right: Environment): (r: Result<Environment, Error>)
    ensures r.Err? <==> exists k :: k in left && k in right
    ensures r.Err? ==> r.error.DuplicateKeys? && r.error.keys != {}
    ensures r.Err? ==> forall k :: k in r.error.keys <==> k in left && k in right
    ensures r.Ok? ==> r.value.Keys == left.Keys + right.Keys
    ensures r.Ok? ==> forall k :: k in left ==> r.value[k] == left[k]
    ensures r.Ok? ==> forall k :: k in right ==> r.value[k] == right[k]
  {
    var clash := left.Keys * right.Keys;
    assert forall k :: k in left && k in right ==> k in clash;
    if clash != {} then Err(DuplicateKeys(clash)) else Ok(left + right)
  }

  /** Disjoint environments merge the same way round either order. */
  lemma MergeEnvironmentsSymmetric(left: Environment, right: Environment)
    ensures MergeEnvironments(left, right).Ok? <==> MergeEnvironments(right, left).Ok?
    ensures MergeEnvironments(left, right).Ok? ==> MergeEnvironments(left, right) == MergeEnvironments(right, left)
  {
    if MergeEnvironments(left, right).Ok? {
      assert left + right == right + left;
    }
  }

  /** The expression library's compile-then-run of an expression text in
      an environment: a parameter of the model. */
  type Program = (string, Environment) -> Result<Datum, string>

  /** The expression part of a mapping rule. */
  datatype MappingConfig = MappingConfig(expression: string, extraEnvironment: Environment)

  /** Runs a rule's expression in `env` extended with the rule's constants;
      a collision between the two is reported before the program runs. */
  function RunExpr(run: Program, env: Environment, cfg: MappingConfig): (r: Result<Datum, Error>)
    ensures MergeEnvironments(env, cfg.extraEnvironment).Err? ==> r.Err? && r.error.DuplicateKeys?
    ensures r.Ok? ==> exists merged :: && MergeEnvironments(env, cfg.extraEnvironment) == Ok(merged)
                                       && run(cfg.expression, merged) == Ok(r.value)
    ensures MergeEnvironments(env, cfg.extraEnvironment).Ok? ==>
              (r.Ok? <==> run(cfg.expression, MergeEnvironments(env, cfg.extraEnvironment).value).Ok?)
  {
    match MergeEnvironments(env, cfg.extraEnvironment)
    case Err(e) => Err(e)
    case Ok(merged) =>
      match run(cfg.expression, merged)
      case Err(msg) => Err(ExpressionFailed(msg))
      case Ok(d) => Ok(d)
  }

  // ---------------------------------------------------------------------------
  // swapPointAndComma

  /** Exchanges '.' and ',' in a string of code points, leaving every other
      character alone. Go's replacement of invalid UTF-8 by U+FFFD on the
      way through `[]rune` has no counterpart here. */
  function SwapPointAndComma(s: string): (r: string)
    ensures |r| == |s|
    ensures forall i :: 0 <= i < |s| ==> (s[i] == '.' <==> r[i] == ',')
    ensures forall i :: 0 <= i < |s| ==> (s[i] == ',' <==> r[i] == '.')
    ensures forall i :: 0 <= i < |s| && s[i] != '.' && s[i] != ',' ==> r[i] == s[i]
    decreases |s|
  {
    if |s| == 0 then ""
    else
      var c := if s[0] == '.' then ',' else if s[0] == ',' then '.' else s[0];
      [c] + SwapPointAndComma(s[1..])
  }

  lemma SwapPointAndCommaInvolution(s: string)
    ensures SwapPointAndComma(SwapPointAndComma(s)) == s
  {
    var r := SwapPointAndComma(SwapPointAndComma(s));
    assert forall i :: 0 <= i < |s| ==> r[i] == s[i];
  }
}
