/** Export curve construction (`make_bone` and `make_curve`,
    blender/exporter.py:258-407): a bone's channels become a position curve,
    a rotation curve and pattern curves. Frames are truncated to integers,
    held keys are duplicated, pattern codes are paired. The bone-space
    transforms are a parameter: a `BoneSpace` stands for the bone's entry in
    `bone_props` and the matrix products `transform_location` and
    `transform_rotation` build from it, after which the axis conversion of
    the coordinate converter applies. */
module Exporter {
  import opened Outcomes
  import opened Values
  import opened Strings
  import opened ExportChannels
  import opened ConstantDuplication
  import CoordinateConverter
  import Curves
  import Importer

  datatype CurveFormat = PosVec3 | RotQuatScaled | RotQuatHalfFloat | Pat1LeftHand | Pat1RightHand

  /** An exported value: a position, a rotation in file order, or a
      `[start, end]` pattern pair. */
  datatype OutValue = OutPosition(p: Vec3) | OutRotation(g: GmtQuat) | OutPattern(start: int, end: int)

  /** An exported curve: its format, its integer frames and its values. */
  datatype OutCurve = OutCurve(format: CurveFormat, frames: seq<int>, values: seq<OutValue>)

  datatype OutBone = OutBone(name: string, curves: seq<OutCurve>)

  /** The export settings `make_bone` and `make_curve` read: the file version
      and whether the target is the Dragon Engine. */
  datatype Target = Target(version: int, isDragonEngine: bool)

  /** A bone's entry in `bone_props`, reduced to the maps
      `transform_location` and `transform_rotation` apply with it: the
      rest-pose rotation and head offsets for positions, and the local and
      rest-pose rotations for quaternions. A bone without an entry is
      `None`. */
  datatype BoneSpace = BoneSpace(loc: Vec3 -> Vec3, rot: Quat -> Quat)

  /** The largest hand pattern code the old engine knows. */
  const OldEngineMaxPattern: real := 17.0

  /** The last file version whose rotations are stored as half floats;
      later versions store them scaled. */
  const HalfFloatLastVersion: int := 0x10001

  /** Python's `int()` on a float: truncation toward zero. */
  function Trunc(x: real): (r: int)
    ensures x >= 0.0 ==> 0 <= r && r as real <= x < r as real + 1.0
    ensures x < 0.0 ==> r <= 0 && r as real - 1.0 < x <= r as real
  {
    if x >= 0.0 then x.Floor else -((-x).Floor)
  }

  /** The truncated frames of a channel's keyframe points. */
  function FramesOf(c: FCurve): (r: seq<int>)
    ensures |r| == |c.keys|
  {
    seq(|c.keys|, i requires 0 <= i < |c.keys| => Trunc(c.keys[i].frame))
  }

  /** The values of a channel's keyframe points. */
  function ValuesOf(c: FCurve): (r: seq<real>)
    ensures |r| == |c.keys|
  {
    seq(|c.keys|, i requires 0 <= i < |c.keys| => c.keys[i].value)
  }

  /** The `pol` list: starting from all true, each axis in turn clears the
      flag of every key whose interpolation is not CONSTANT. */
  function ConstantFlags(axes: seq<FCurve>, n: nat): (r: seq<bool>)
    requires forall a :: 0 <= a < |axes| ==> |axes[a].keys| == n
    ensures |r| == n
  {
    if |axes| == 0 then seq(n, _ => true)
    else
      var pol := ConstantFlags(axes[..|axes| - 1], n);
      var last := axes[|axes| - 1];
      seq(n, i requires 0 <= i < n => pol[i] && last.keys[i].interpolation == ConstantInterpolation)
  }

  /** A key's flag stays set exactly when every axis is CONSTANT there. */
  lemma {:induction false} ConstantFlagsAllAxes(axes: seq<FCurve>, n: nat)
    requires forall a :: 0 <= a < |axes| ==> |axes[a].keys| == n
    ensures forall i :: 0 <= i < n ==>
              (ConstantFlags(axes, n)[i] <==>
                 forall a :: 0 <= a < |axes| ==> axes[a].keys[i].interpolation == ConstantInterpolation)
  {
    if |axes| > 0 {
      var pre := axes[..|axes| - 1];
      ConstantFlagsAllAxes(pre, n);
      forall i | 0 <= i < n
        ensures (ConstantFlags(axes, n)[i] <==>
                   forall a :: 0 <= a < |axes| ==> axes[a].keys[i].interpolation == ConstantInterpolation)
      {
        assert forall a :: 0 <= a < |pre| ==> pre[a] == axes[a];
      }
    }
  }

  /** `correct_pattern`: codes above the old engine's maximum become 0. */
  function CorrectPattern(codes: seq<real>): (r: seq<real>)
    ensures |r| == |codes|
    ensures forall i :: 0 <= i < |r| ==> r[i] <= OldEngineMaxPattern
    ensures forall i :: 0 <= i < |r| && codes[i] <= OldEngineMaxPattern ==> r[i] == codes[i]
    ensures forall i :: 0 <= i < |r| && codes[i] > OldEngineMaxPattern ==> r[i] == 0.0
  {
    seq(|codes|, i requires 0 <= i < |codes| => if codes[i] > OldEngineMaxPattern then 0.0 else codes[i])
  }

  /** Correcting twice changes nothing more. */
  lemma CorrectPatternIdempotent(codes: seq<real>)
    ensures CorrectPattern(CorrectPattern(codes)) == CorrectPattern(codes)
  {
  }

  /** The rotation format for a file version. */
  function RotationFormat(version: int): (r: CurveFormat)
    ensures r == RotQuatScaled <==> version > HalfFloatLastVersion
    ensures r == RotQuatScaled || r == RotQuatHalfFloat
  {
    if version > HalfFloatLastVersion then RotQuatScaled else RotQuatHalfFloat
  }

  /** Every axis of a curve has `n` keyframe points. */
  predicate AxesOfLength(axes: seq<FCurve>, n: nat) {
    forall a :: 0 <= a < |axes| ==> |axes[a].keys| == n
  }

  /** The frames, values and interpolation flags of a curve, in the form the
      duplication pass takes. Frames come from the first axis. */
  function Interpolated(format: CurveFormat, axes: seq<FCurve>, values: seq<OutValue>): (r: OutCurve)
    requires |axes| > 0 && AxesOfLength(axes, |axes[0].keys|) && |values| == |axes[0].keys|
    ensures r.format == format
    ensures |r.frames| == |r.values|
              == |values| + Inserted(FramesOf(axes[0]), ConstantFlags(axes, |values|), |values|)
    ensures |values| > 0 ==> r.frames[|r.frames| - 1] == Trunc(axes[0].keys[|values| - 1].frame)
                             && r.values[|r.values| - 1] == values[|values| - 1]
  {
    var n := |axes[0].keys|;
    var t := Expand(FramesOf(axes[0]), values, ConstantFlags(axes, n), n);
    OutCurve(format, t.frames, t.values)
  }

  /** The values `transform_location` returns for the zipped x, y and z
      keys: each position is taken into bone space and then converted to
      the file's axes, so converting it back gives the bone-space position. */
  function PositionValues(x: FCurve, y: FCurve, z: FCurve, loc: Vec3 -> Vec3): (r: seq<OutValue>)
    requires |y.keys| == |x.keys| && |z.keys| == |x.keys|
    ensures |r| == |x.keys|
    ensures forall i :: 0 <= i < |r| ==>
              && r[i].OutPosition?
              && CoordinateConverter.PosToBlender(r[i].p) == loc(Vec3(x.keys[i].value, y.keys[i].value, z.keys[i].value))
  {
    seq(|x.keys|, i requires 0 <= i < |x.keys| =>
      OutPosition(CoordinateConverter.PosFromBlender(loc(Vec3(x.keys[i].value, y.keys[i].value, z.keys[i].value)))))
  }

  /** The values `transform_rotation` returns for the zipped w, x, y and z
      keys: each rotation is taken into bone space and then converted to
      the file's component order. */
  function RotationValues(w: FCurve, x: FCurve, y: FCurve, z: FCurve, rot: Quat -> Quat): (r: seq<OutValue>)
    requires |x.keys| == |w.keys| && |y.keys| == |w.keys| && |z.keys| == |w.keys|
    ensures |r| == |w.keys|
    ensures forall i :: 0 <= i < |r| ==>
              && r[i].OutRotation?
              && CoordinateConverter.RotToBlender(r[i].g)
                 == rot(Quat(w.keys[i].value, x.keys[i].value, y.keys[i].value, z.keys[i].value))
  {
    seq(|w.keys|, i requires 0 <= i < |w.keys| =>
      OutRotation(CoordinateConverter.RotFromBlender(
        rot(Quat(w.keys[i].value, x.keys[i].value, y.keys[i].value, z.keys[i].value)))))
  }

  /** `make_curve` with three axes. `transform_location` first looks the
      bone up in `bone_props`, which fails for a bone without rest-pose
      data. The values of the x, y and z channels are zipped, so a channel
      without keys leaves none, and `transform_location` then fails on
      printing the first value. Axes of different lengths make the
      interpolation read fail. */
  function MakePositionCurve(x: FCurve, y: FCurve, z: FCurve, props: Option<BoneSpace>): (r: Result<OutCurve, ExportError>)
    ensures r.Ok? <==> props.Some? && 0 < |x.keys| == |y.keys| == |z.keys|
    ensures props.None? ==> r == Err(NoBoneProps)
    ensures props.Some? && r.Err? ==> (r.error == EmptyPositionValues <==> |x.keys| == 0 || |y.keys| == 0 || |z.keys| == 0)
    ensures props.Some? && r.Err? ==> r.error == EmptyPositionValues || r.error == AxisLengthMismatch
    ensures r.Ok? ==> r.value.format == PosVec3
    ensures r.Ok? ==> r.value == Interpolated(PosVec3, [x, y, z], PositionValues(x, y, z, props.value.loc))
  {
    if props.None? then Err(NoBoneProps)
    else if |x.keys| == 0 || |y.keys| == 0 || |z.keys| == 0 then Err(EmptyPositionValues)
    else if |y.keys| != |x.keys| || |z.keys| != |x.keys| then Err(AxisLengthMismatch)
    else Ok(Interpolated(PosVec3, [x, y, z], PositionValues(x, y, z, props.value.loc)))
  }

  /** `make_curve` with four axes, in the editor's w, x, y, z order.
      `transform_rotation` looks the bone up in `bone_props` first. The
      flag buffer has as many entries as the w channel has keys. When w has
      none, the buffer is empty, `foreach_get` reads nothing, and the curve
      comes out without keys whatever the other axes hold. Otherwise an axis
      of a different length makes the interpolation read fail. */
  function MakeRotationCurve(w: FCurve, x: FCurve, y: FCurve, z: FCurve, format: CurveFormat,
                             props: Option<BoneSpace>): (r: Result<OutCurve, ExportError>)
    ensures r.Ok? <==> props.Some? && (|w.keys| == 0 || |w.keys| == |x.keys| == |y.keys| == |z.keys|)
    ensures props.None? ==> r == Err(NoBoneProps)
    ensures props.Some? && r.Err? ==> r.error == AxisLengthMismatch
    ensures r.Ok? ==> r.value.format == format
    ensures r.Ok? && |w.keys| == 0 ==> r.value.frames == [] && r.value.values == []
    ensures r.Ok? && |w.keys| == |x.keys| == |y.keys| == |z.keys| ==>
              r.value == Interpolated(format, [w, x, y, z], RotationValues(w, x, y, z, props.value.rot))
  {
    if props.None? then Err(NoBoneProps)
    else if |w.keys| == 0 then
      var none := OutCurve(format, [], []);
      assert |x.keys| == |y.keys| == |z.keys| == 0 ==>
               none == Interpolated(format, [w, x, y, z], RotationValues(w, x, y, z, props.value.rot));
      Ok(none)
    else if |x.keys| != |w.keys| || |y.keys| != |w.keys| || |z.keys| != |w.keys| then Err(AxisLengthMismatch)
    else Ok(Interpolated(format, [w, x, y, z], RotationValues(w, x, y, z, props.value.rot)))
  }
  /** A rotation whose w channel has no keys exports an empty curve, even
      when x, y and z have keys; and the count check of `make_bone` accepts
      such counts when the empty channel comes first. */
  lemma EmptyFirstQuaternionAxis(w: FCurve, x: FCurve, y: FCurve, z: FCurve, format: CurveFormat,
                                 space: BoneSpace, n: nat)
    requires |w.keys| == 0
    ensures MakeRotationCurve(w, x, y, z, format, Some(space)) == Ok(OutCurve(format, [], []))
    ensures CountsAgree([0, n, n, n])
  {
  }



  /** The codes of a pattern channel as `make_curve` pairs them: corrected
      unless the target is the Dragon Engine. */
  function PatternCodes(c: FCurve, target: Target): (r: seq<real>)
    ensures |r| == |c.keys|
  {
    if target.isDragonEngine then ValuesOf(c) else CorrectPattern(ValuesOf(c))
  }

  /** `make_curve` with one axis: the codes are paired with their successors
      and truncated, the frames are kept as they are, and no key is
      duplicated. A channel without keys fails where the pairing reads the
      last code. */
  function MakePatternCurve(c: FCurve, format: CurveFormat, target: Target): (r: Result<OutCurve, ExportError>)
    ensures r.Ok? <==> |c.keys| > 0
    ensures r.Err? ==> r.error == EmptyPattern
    ensures r.Ok? ==> r.value.format == format && r.value.frames == FramesOf(c) && |r.value.values| == |c.keys|
  {
    var codes := PatternCodes(c, target);
    match CoordinateConverter.Pattern1FromBlender(codes)
    case Err(_) => Err(EmptyPattern)
    case Ok(cols) =>
      Ok(OutCurve(format, FramesOf(c),
                  seq(|codes|, i requires 0 <= i < |codes| => OutPattern(Trunc(cols.starts[i]), Trunc(cols.ends[i])))))
  }

  /** The values of a pattern curve are the `[start, end]` pairs the
      converter zips from its columns, each truncated. */
  lemma PatternCurveFromPairs(c: FCurve, format: CurveFormat, target: Target)
    requires |c.keys| > 0
    ensures var pairs := CoordinateConverter.Pairs(CoordinateConverter.Pattern1FromBlender(PatternCodes(c, target)).value);
            var r := MakePatternCurve(c, format, target);
            && r.Ok? && |r.value.values| == |pairs|
            && forall i :: 0 <= i < |pairs| ==>
                 r.value.values[i] == OutPattern(Trunc(pairs[i].start), Trunc(pairs[i].end))
  {
  }

  /** The pair of key `i` of a pattern curve: its code starts it and the
      next key's code ends it, the last key ending with its own code. Codes
      are the channel's values, corrected unless the target is the Dragon
      Engine. */
  lemma PatternCurvePairs(c: FCurve, format: CurveFormat, target: Target, i: nat)
    requires i < |c.keys|
    ensures var codes := PatternCodes(c, target);
            && MakePatternCurve(c, format, target).Ok?
            && MakePatternCurve(c, format, target).value.values[i]
               == OutPattern(Trunc(codes[i]), Trunc(if i + 1 < |codes| then codes[i + 1] else codes[i]))
  {
    var codes := PatternCodes(c, target);
    var cols := CoordinateConverter.Pattern1FromBlender(codes).value;
    assert cols.starts[i] == codes[i];
    assert cols.ends[i] == if i + 1 < |codes| then codes[i + 1] else codes[i];
  }

  /** Which codes are paired: the channel's own values for the Dragon
      Engine, otherwise the values with codes above the old engine's maximum
      replaced by 0. */
  lemma PatternCodesCorrected(c: FCurve, target: Target)
    ensures target.isDragonEngine ==> forall i :: 0 <= i < |c.keys| ==> PatternCodes(c, target)[i] == c.keys[i].value
    ensures !target.isDragonEngine ==> forall i :: 0 <= i < |c.keys| ==>
              PatternCodes(c, target)[i] == if c.keys[i].value > OldEngineMaxPattern then 0.0 else c.keys[i].value
  {
  }

  /** For the old engine no exported pattern code exceeds its maximum. */
  lemma PatternCurveBounded(c: FCurve, format: CurveFormat, target: Target)
    requires |c.keys| > 0 && !target.isDragonEngine
    ensures var r := MakePatternCurve(c, format, target).value;
            forall i :: 0 <= i < |r.values| ==> r.values[i].start <= 17 && r.values[i].end <= 17
  {
    var codes := PatternCodes(c, target);
    var r := MakePatternCurve(c, format, target).value;
    forall i | 0 <= i < |r.values| ensures r.values[i].start <= 17 && r.values[i].end <= 17 {
      PatternCurvePairs(c, format, target, i);
      TruncMonotone(codes[i], OldEngineMaxPattern);
      if i + 1 < |codes| {
        TruncMonotone(codes[i + 1], OldEngineMaxPattern);
      }
    }
  }

  /** Truncation keeps order. */
  lemma TruncMonotone(x: real, y: real)
    requires x <= y
    ensures Trunc(x) <= Trunc(y)
  {
  }

  /** The duplication pass at the level of a curve keeps every original
      key, in order, with its truncated frame and its value: original `i`
      sits after the keys inserted for the originals before it. */
  lemma InterpolatedKeepsOriginals(format: CurveFormat, axes: seq<FCurve>, values: seq<OutValue>, i: nat)
    requires |axes| > 0 && AxesOfLength(axes, |axes[0].keys|) && |values| == |axes[0].keys|
    requires i < |axes[0].keys|
    ensures var r, n := Interpolated(format, axes, values), |axes[0].keys|;
            var fs, flags := FramesOf(axes[0]), ConstantFlags(axes, n);
            && r.format == format
            && |r.frames| == |r.values| == n + Inserted(fs, flags, n)
            && i + Inserted(fs, flags, i + 1) < |r.frames|
            && r.frames[i + Inserted(fs, flags, i + 1)] == fs[i]
            && r.values[i + Inserted(fs, flags, i + 1)] == values[i]
  {
    var n := |axes[0].keys|;
    ExpandKeepsOriginals(FramesOf(axes[0]), values, ConstantFlags(axes, n), i);
  }

  /** A key is held after original `i` exactly when every axis is CONSTANT
      at `i` and the next frame is more than one frame away. */
  lemma HoldsIffAllConstant(axes: seq<FCurve>, i: nat)
    requires |axes| > 0 && AxesOfLength(axes, |axes[0].keys|)
    requires i + 1 < |axes[0].keys|
    ensures var fs, flags := FramesOf(axes[0]), ConstantFlags(axes, |axes[0].keys|);
            Holds(fs, flags, i) <==>
              && (forall a :: 0 <= a < |axes| ==> axes[a].keys[i].interpolation == ConstantInterpolation)
              && fs[i + 1] - fs[i] > 1
  {
    ConstantFlagsAllAxes(axes, |axes[0].keys|);
  }

  /** A key that every axis holds CONSTANT over a gap of more than one
      frame gets a copy one frame before the next key, carrying its value,
      right after it in the exported curve. */
  lemma InterpolatedInsertsHolds(format: CurveFormat, axes: seq<FCurve>, values: seq<OutValue>, i: nat)
    requires |axes| > 0 && AxesOfLength(axes, |axes[0].keys|) && |values| == |axes[0].keys|
    requires i + 1 < |axes[0].keys|
    requires forall a :: 0 <= a < |axes| ==> axes[a].keys[i].interpolation == ConstantInterpolation
    requires FramesOf(axes[0])[i + 1] - FramesOf(axes[0])[i] > 1
    ensures var r, n := Interpolated(format, axes, values), |axes[0].keys|;
            var fs, flags := FramesOf(axes[0]), ConstantFlags(axes, n);
            && i + Inserted(fs, flags, i + 1) + 1 < |r.frames|
            && r.frames[i + Inserted(fs, flags, i + 1) + 1] == fs[i + 1] - 1
            && r.values[i + Inserted(fs, flags, i + 1) + 1] == values[i]
  {
    HoldsIffAllConstant(axes, i);
    ExpandInsertsHold(FramesOf(axes[0]), values, ConstantFlags(axes, |axes[0].keys|), i);
  }

  /** The copy inserted after a held key repeats that key's exported value. */
  lemma HoldCopiesKey(format: CurveFormat, axes: seq<FCurve>, values: seq<OutValue>, i: nat)
    requires |axes| > 0 && AxesOfLength(axes, |axes[0].keys|) && |values| == |axes[0].keys|
    requires i + 1 < |axes[0].keys|
    requires forall a :: 0 <= a < |axes| ==> axes[a].keys[i].interpolation == ConstantInterpolation
    requires FramesOf(axes[0])[i + 1] - FramesOf(axes[0])[i] > 1
    ensures var r := Interpolated(format, axes, values);
            var p := i + Inserted(FramesOf(axes[0]), ConstantFlags(axes, |axes[0].keys|), i + 1);
            && p + 1 < |r.frames| == |r.values|
            && r.frames[p + 1] == FramesOf(axes[0])[i + 1] - 1
            && r.values[p + 1] == r.values[p]
  {
    InterpolatedKeepsOriginals(format, axes, values, i);
    InterpolatedInsertsHolds(format, axes, values, i);
  }

  /** Original key `i` of an exported position curve sits after the keys
      inserted before it, at its truncated frame, with the file-axis form of
      its bone-space position. */
  lemma PositionCurveKeepsKeys(x: FCurve, y: FCurve, z: FCurve, props: Option<BoneSpace>, i: nat)
    requires MakePositionCurve(x, y, z, props).Ok? && i < |x.keys|
    ensures var r := MakePositionCurve(x, y, z, props).value;
            var p := i + Inserted(FramesOf(x), ConstantFlags([x, y, z], |x.keys|), i + 1);
            && p < |r.frames| == |r.values|
            && r.frames[p] == Trunc(x.keys[i].frame)
            && r.values[p].OutPosition?
            && CoordinateConverter.PosToBlender(r.values[p].p)
               == props.value.loc(Vec3(x.keys[i].value, y.keys[i].value, z.keys[i].value))
  {
    var axes, values := [x, y, z], PositionValues(x, y, z, props.value.loc);
    var r := Interpolated(PosVec3, axes, values);
    assert MakePositionCurve(x, y, z, props) == Ok(r);
    var p := i + Inserted(FramesOf(x), ConstantFlags(axes, |x.keys|), i + 1);
    assert && p < |r.frames| == |r.values|
           && r.frames[p] == Trunc(x.keys[i].frame)
           && r.values[p] == values[i] by {
      InterpolatedKeepsOriginals(PosVec3, axes, values, i);
    }
    assert values[i].OutPosition? && CoordinateConverter.PosToBlender(values[i].p) == props.value.loc(Vec3(x.keys[i].value, y.keys[i].value, z.keys[i].value));
  }

  /** A key that all three axes hold CONSTANT over a gap of more than one
      frame is followed in the exported position curve by a copy of it one
      frame before the next key. */
  lemma PositionCurveHoldsKeys(x: FCurve, y: FCurve, z: FCurve, props: Option<BoneSpace>, i: nat)
    requires MakePositionCurve(x, y, z, props).Ok? && i + 1 < |x.keys|
    requires && x.keys[i].interpolation == ConstantInterpolation
             && y.keys[i].interpolation == ConstantInterpolation
             && z.keys[i].interpolation == ConstantInterpolation
    requires Trunc(x.keys[i + 1].frame) - Trunc(x.keys[i].frame) > 1
    ensures var r := MakePositionCurve(x, y, z, props).value;
            var p := i + Inserted(FramesOf(x), ConstantFlags([x, y, z], |x.keys|), i + 1);
            && p + 1 < |r.frames| == |r.values|
            && r.frames[p + 1] == Trunc(x.keys[i + 1].frame) - 1
            && r.values[p + 1] == r.values[p]
  {
    var axes, values := [x, y, z], PositionValues(x, y, z, props.value.loc);
    var r := Interpolated(PosVec3, axes, values);
    assert MakePositionCurve(x, y, z, props) == Ok(r);
    var p := i + Inserted(FramesOf(x), ConstantFlags(axes, |x.keys|), i + 1);
    assert && p + 1 < |r.frames| == |r.values|
           && r.frames[p + 1] == Trunc(x.keys[i + 1].frame) - 1
           && r.values[p + 1] == r.values[p] by {
      assert axes[0] == x && axes[1] == y && axes[2] == z && |axes| == 3;
      assert FramesOf(axes[0])[i + 1] - FramesOf(axes[0])[i] > 1;
      HoldCopiesKey(PosVec3, axes, values, i);
    }
  }

  /** A successful rotation curve with keys on its w axis is the
      duplication pass over the four axes and their transformed values. */
  lemma RotationCurveIsInterpolated(w: FCurve, x: FCurve, y: FCurve, z: FCurve, format: CurveFormat,
                                    props: Option<BoneSpace>)
    requires MakeRotationCurve(w, x, y, z, format, props).Ok? && |w.keys| > 0
    ensures props.Some? && |w.keys| == |x.keys| == |y.keys| == |z.keys|
    ensures MakeRotationCurve(w, x, y, z, format, props)
            == Ok(Interpolated(format, [w, x, y, z], RotationValues(w, x, y, z, props.value.rot)))
  {
  }

  /** Original key `i` of an exported rotation curve sits after the keys
      inserted before it, at its truncated frame, with the file-order form
      of its bone-space rotation. */
  lemma RotationCurveKeepsKeys(w: FCurve, x: FCurve, y: FCurve, z: FCurve, format: CurveFormat,
                               props: Option<BoneSpace>, i: nat)
    requires MakeRotationCurve(w, x, y, z, format, props).Ok? && i < |w.keys|
    ensures var r := MakeRotationCurve(w, x, y, z, format, props).value;
            var p := i + Inserted(FramesOf(w), ConstantFlags([w, x, y, z], |w.keys|), i + 1);
            && p < |r.frames| == |r.values|
            && r.frames[p] == Trunc(w.keys[i].frame)
            && r.values[p].OutRotation?
            && CoordinateConverter.RotToBlender(r.values[p].g)
               == props.value.rot(Quat(w.keys[i].value, x.keys[i].value, y.keys[i].value, z.keys[i].value))
  {
    RotationCurveIsInterpolated(w, x, y, z, format, props);
    InterpolatedRotationKeepsKeys(w, x, y, z, format, props.value.rot, i);
  }

  /** `RotationCurveKeepsKeys` for the duplication pass itself. */
  lemma InterpolatedRotationKeepsKeys(w: FCurve, x: FCurve, y: FCurve, z: FCurve, format: CurveFormat,
                                      rot: Quat -> Quat, i: nat)
    requires |w.keys| == |x.keys| == |y.keys| == |z.keys| && i < |w.keys|
    ensures var r := Interpolated(format, [w, x, y, z], RotationValues(w, x, y, z, rot));
            var p := i + Inserted(FramesOf(w), ConstantFlags([w, x, y, z], |w.keys|), i + 1);
            && p < |r.frames| == |r.values|
            && r.frames[p] == Trunc(w.keys[i].frame)
            && r.values[p].OutRotation?
            && CoordinateConverter.RotToBlender(r.values[p].g)
               == rot(Quat(w.keys[i].value, x.keys[i].value, y.keys[i].value, z.keys[i].value))
  {
    var axes, values := [w, x, y, z], RotationValues(w, x, y, z, rot);
    var r := Interpolated(format, axes, values);
    var p := i + Inserted(FramesOf(w), ConstantFlags(axes, |w.keys|), i + 1);
    assert p < |r.frames| == |r.values| && r.frames[p] == FramesOf(w)[i] && r.values[p] == values[i] by {
      InterpolatedKeepsOriginals(format, axes, values, i);
    }
    assert values[i].OutRotation?
           && CoordinateConverter.RotToBlender(values[i].g)
              == rot(Quat(w.keys[i].value, x.keys[i].value, y.keys[i].value, z.keys[i].value));
  }

  /** A key that all four axes hold CONSTANT over a gap of more than one
      frame is followed in the exported rotation curve by a copy of it one
      frame before the next key. */
  lemma RotationCurveHoldsKeys(w: FCurve, x: FCurve, y: FCurve, z: FCurve, format: CurveFormat,
                               props: Option<BoneSpace>, i: nat)
    requires MakeRotationCurve(w, x, y, z, format, props).Ok? && i + 1 < |w.keys|
    requires && w.keys[i].interpolation == ConstantInterpolation
             && x.keys[i].interpolation == ConstantInterpolation
             && y.keys[i].interpolation == ConstantInterpolation
             && z.keys[i].interpolation == ConstantInterpolation
    requires Trunc(w.keys[i + 1].frame) - Trunc(w.keys[i].frame) > 1
    ensures var r := MakeRotationCurve(w, x, y, z, format, props).value;
            var p := i + Inserted(FramesOf(w), ConstantFlags([w, x, y, z], |w.keys|), i + 1);
            && p + 1 < |r.frames| == |r.values|
            && r.frames[p + 1] == Trunc(w.keys[i + 1].frame) - 1
            && r.values[p + 1] == r.values[p]
  {
    RotationCurveIsInterpolated(w, x, y, z, format, props);
    var axes, values := [w, x, y, z], RotationValues(w, x, y, z, props.value.rot);
    assert axes[0] == w && axes[1] == x && axes[2] == y && axes[3] == z && |axes| == 4;
    assert FramesOf(axes[0])[i + 1] - FramesOf(axes[0])[i] > 1;
    HoldCopiesKey(format, axes, values, i);
  }


  /** Ordered frames stay ordered. */
  lemma InterpolatedKeepsOrder(format: CurveFormat, axes: seq<FCurve>, values: seq<OutValue>)
    requires |axes| > 0 && AxesOfLength(axes, |axes[0].keys|) && |values| == |axes[0].keys|
    requires Ascending(FramesOf(axes[0]))
    ensures Ascending(Interpolated(format, axes, values).frames)
  {
    var n := |axes[0].keys|;
    ExpandKeepsOrder(FramesOf(axes[0]), values, ConstantFlags(axes, n), n);
  }

  /** Three or four axes are all present in a dictionary. */
  predicate HasAxes(m: map<int, FCurve>, width: nat) {
    forall a :: 0 <= a < width ==> a in m
  }

  /** Every axis of `role` has a channel. */
  predicate ChannelsCover(channels: seq<FCurve>, role: Role) {
    forall a :: 0 <= a < Width(role) ==> LastOf(channels, Slot(role, a)).Some?
  }

  /** The position curve, when all three axes are present. */
  function PositionCurves(g: Gathered, props: Option<BoneSpace>): (r: Result<seq<OutCurve>, ExportError>)
    ensures r.Ok? ==> |r.value| == if HasAxes(g.loc, LocationAxes) then 1 else 0
    ensures r.Err? ==> HasAxes(g.loc, LocationAxes)
  {
    if !HasAxes(g.loc, LocationAxes) then Ok([])
    else
      match MakePositionCurve(g.loc[0], g.loc[1], g.loc[2], props)
      case Err(e) => Err(e)
      case Ok(c) => Ok([c])
  }

  /** The rotation curve, when all four axes are present. */
  function RotationCurves(g: Gathered, target: Target, props: Option<BoneSpace>): (r: Result<seq<OutCurve>, ExportError>)
    ensures r.Ok? ==> |r.value| == if HasAxes(g.rot, RotationAxes) then 1 else 0
    ensures r.Err? ==> HasAxes(g.rot, RotationAxes)
  {
    if !HasAxes(g.rot, RotationAxes) then Ok([])
    else
      match MakeRotationCurve(g.rot[0], g.rot[1], g.rot[2], g.rot[3], RotationFormat(target.version), props)
      case Err(e) => Err(e)
      case Ok(c) => Ok([c])
  }

  /** A pattern key's format: the left-hand one for a left key. */
  function SideFormat(s: Slot): CurveFormat {
    if s.role == PatternSide(true) then Pat1LeftHand else Pat1RightHand
  }

  /** The pattern curves, one per dictionary entry in dictionary order. */
  function PatternCurves(ps: seq<PatternEntry>, target: Target): (r: Result<seq<OutCurve>, ExportError>)
    ensures r.Ok? <==> forall p :: 0 <= p < |ps| ==> |ps[p].curve.keys| > 0
    ensures r.Err? ==> r.error == EmptyPattern
    ensures r.Ok? ==> |r.value| == |ps|
    ensures r.Ok? ==> forall p :: 0 <= p < |ps| ==>
              Ok(r.value[p]) == MakePatternCurve(ps[p].curve, SideFormat(ps[p].slot), target)
  {
    if |ps| == 0 then Ok([])
    else
      match MakePatternCurve(ps[0].curve, SideFormat(ps[0].slot), target)
      case Err(e) => Err(e)
      case Ok(c) =>
        match PatternCurves(ps[1..], target)
        case Err(e) => Err(e)
        case Ok(cs) => Ok([c] + cs)
  }

  /** `make_bone`. */
  function MakeBone(name: string, channels: seq<FCurve>, target: Target,
                    props: Option<BoneSpace>): (r: Result<OutBone, ExportError>)
    ensures r.Ok? ==> r.value.name == name
    ensures Accepted(channels) || r.Err?
  {
    GatherAccepts(channels);
    match Gather(channels)
    case Err(e) => Err(e)
    case Ok(g) =>
      match PositionCurves(g, props)
      case Err(e) => Err(e)
      case Ok(pos) =>
        match RotationCurves(g, target, props)
        case Err(e) => Err(e)
        case Ok(rot) =>
          match PatternCurves(g.patterns, target)
          case Err(e) => Err(e)
          case Ok(pats) => Ok(OutBone(name, pos + rot + pats))
  }

  /** The pieces of a successful `make_bone`, in emission order. */
  lemma MakeBoneParts(name: string, channels: seq<FCurve>, target: Target,
                      props: Option<BoneSpace>)
    requires MakeBone(name, channels, target, props).Ok?
    ensures Gather(channels).Ok?
    ensures var g := Gather(channels).value;
            && PositionCurves(g, props).Ok?
            && RotationCurves(g, target, props).Ok?
            && PatternCurves(g.patterns, target).Ok?
            && MakeBone(name, channels, target, props).value.curves
               == PositionCurves(g, props).value + RotationCurves(g, target, props).value
                  + PatternCurves(g.patterns, target).value
  {
  }

  /** All axes of a role are in its dictionary exactly when every axis has
      a channel. */
  lemma CoverIffHasAxes(channels: seq<FCurve>, role: Role)
    requires role == LocationAxis || role == RotationAxis
    requires Gather(channels).Ok?
    ensures HasAxes(Axes(Gather(channels).value, role), Width(role)) <==> ChannelsCover(channels, role)
    ensures ChannelsCover(channels, role) ==>
              forall a :: 0 <= a < Width(role) ==>
                Axes(Gather(channels).value, role)[a] == channels[LastOf(channels, Slot(role, a)).value]
  {
    GatherAxes(channels, role);
  }

  /** The number of curves `make_bone` emits: one position curve exactly
      when all three location axes have a channel, one rotation curve
      exactly when all four quaternion axes have one, and one pattern curve
      per pattern dictionary entry. */
  lemma MakeBoneCount(name: string, channels: seq<FCurve>, target: Target,
                      props: Option<BoneSpace>)
    requires MakeBone(name, channels, target, props).Ok?
    ensures Gather(channels).Ok?
    ensures |MakeBone(name, channels, target, props).value.curves|
            == (if ChannelsCover(channels, LocationAxis) then 1 else 0)
               + (if ChannelsCover(channels, RotationAxis) then 1 else 0)
               + |Gather(channels).value.patterns|
  {
    MakeBoneParts(name, channels, target, props);
    CoverIffHasAxes(channels, LocationAxis);
    CoverIffHasAxes(channels, RotationAxis);
  }

  /** The position curve comes first, built from the last channel of each
      location axis. */
  lemma MakeBonePosition(name: string, channels: seq<FCurve>, target: Target,
                         props: Option<BoneSpace>)
    requires MakeBone(name, channels, target, props).Ok?
    requires ChannelsCover(channels, LocationAxis)
    ensures var cs := MakeBone(name, channels, target, props).value.curves;
            && |cs| > 0
            && cs[0].format == PosVec3
            && Ok(cs[0]) == MakePositionCurve(channels[LastOf(channels, Slot(LocationAxis, 0)).value],
                                          channels[LastOf(channels, Slot(LocationAxis, 1)).value],
                                          channels[LastOf(channels, Slot(LocationAxis, 2)).value],
                                          props)
  {
    MakeBoneParts(name, channels, target, props);
    CoverIffHasAxes(channels, LocationAxis);
  }

  /** The rotation curve follows the position curve, if any, in the format
      the version selects, built from the last channel of each quaternion
      axis in w, x, y, z order. */
  lemma MakeBoneRotation(name: string, channels: seq<FCurve>, target: Target,
                         props: Option<BoneSpace>)
    requires MakeBone(name, channels, target, props).Ok?
    requires ChannelsCover(channels, RotationAxis)
    ensures var cs := MakeBone(name, channels, target, props).value.curves;
            var k := if ChannelsCover(channels, LocationAxis) then 1 else 0;
            && k < |cs|
            && (cs[k].format == RotQuatScaled <==> target.version > HalfFloatLastVersion)
            && Ok(cs[k]) == MakeRotationCurve(channels[LastOf(channels, Slot(RotationAxis, 0)).value],
                                          channels[LastOf(channels, Slot(RotationAxis, 1)).value],
                                          channels[LastOf(channels, Slot(RotationAxis, 2)).value],
                                          channels[LastOf(channels, Slot(RotationAxis, 3)).value],
                                          RotationFormat(target.version), props)
  {
    MakeBoneParts(name, channels, target, props);
    CoverIffHasAxes(channels, LocationAxis);
    CoverIffHasAxes(channels, RotationAxis);
  }

  /** The pattern curves come last, one per side and array index in order
      of first appearance, each built from the last channel of its slot in
      the format of its side. */
  lemma MakeBonePatterns(name: string, channels: seq<FCurve>, target: Target,
                         props: Option<BoneSpace>)
    requires MakeBone(name, channels, target, props).Ok?
    ensures Gather(channels).Ok?
    ensures var cs := MakeBone(name, channels, target, props).value.curves;
            var ps := Gather(channels).value.patterns;
            var first := (if ChannelsCover(channels, LocationAxis) then 1 else 0)
                         + (if ChannelsCover(channels, RotationAxis) then 1 else 0);
            && PatternsOf(channels, ps)
            && |cs| == first + |ps|
            && forall p :: 0 <= p < |ps| ==>
                 && cs[first + p].format == SideFormat(ps[p].slot)
                 && Ok(cs[first + p]) == MakePatternCurve(channels[LastOf(channels, ps[p].slot).value],
                                                          SideFormat(ps[p].slot), target)
  {
    MakeBoneCount(name, channels, target, props);
    MakeBoneParts(name, channels, target, props);
    CoverIffHasAxes(channels, LocationAxis);
    CoverIffHasAxes(channels, RotationAxis);
    GatherPatterns(channels);
  }

  /** A bone with a position or rotation curve fails without rest-pose
      data, whatever the other channels hold; a bone with neither never
      reads that data. */
  lemma MakeBoneNeedsProps(name: string, channels: seq<FCurve>, target: Target, props: Option<BoneSpace>)
    ensures Gather(channels).Ok? && (ChannelsCover(channels, LocationAxis) || ChannelsCover(channels, RotationAxis)) ==>
              MakeBone(name, channels, target, None) == Err(NoBoneProps)
    ensures !ChannelsCover(channels, LocationAxis) && !ChannelsCover(channels, RotationAxis) ==>
              MakeBone(name, channels, target, None) == MakeBone(name, channels, target, props)
  {
    if Gather(channels).Ok? {
      CoverIffHasAxes(channels, LocationAxis);
      CoverIffHasAxes(channels, RotationAxis);
    }
  }

  /** The role a property name written by the importer gets back on export. */
  function ExpectedRole(kind: Curves.CurveType, channel: Curves.Channel): Role {
    match kind
    case Location => LocationAxis
    case Rotation => RotationAxis
    case PatternHand =>
      (match channel
       case LeftHand => PatternSide(true)
       case RightHand => PatternSide(false)
       case _ => Unused)
    case OtherType(_) => Unused
  }

  /** Names the importer gives animated properties are read back by the
      exporter as the same thing, whatever precedes the last '.': location
      and rotation names as their axes, the two pattern names as their side,
      and the two unused pattern names as nothing. */
  lemma ImportedNamesClassify(front: string, kind: Curves.CurveType, channel: Curves.Channel)
    requires !kind.OtherType?
    ensures RoleOf(front + "." + Importer.PropertyFromCurveType(kind, channel)) == Some(ExpectedRole(kind, channel))
  {
    match kind
    case Location => LocationNameClassifies(front);
    case Rotation => RotationNameClassifies(front);
    case PatternHand => PatternNameClassifies(front, Importer.PropertyFromCurveType(kind, channel));
  }

  lemma LocationNameClassifies(front: string)
    ensures RoleOf(front + "." + "location") == Some(LocationAxis)
  {
    SuffixAfterDot(front, "location");
    assert OccursAt("location", "location", 0);
  }

  lemma RotationNameClassifies(front: string)
    ensures RoleOf(front + "." + "rotation_quaternion") == Some(RotationAxis)
  {
    SuffixAfterDot(front, "rotation_quaternion");
    MissingChar("rotation_quaternion", "location", 'l');
    assert OccursAt("rotation_quaternion", "rotation_quaternion", 0);
  }

  /** The four pattern names: the two side names select their side, the
      others are read as nothing. */
  lemma PatternNameClassifies(front: string, name: string)
    requires name in {"pat1_left_hand", "pat1_right_hand", "pat1_unk2", "pat1_unk3"}
    ensures RoleOf(front + "." + name)
            == Some(if name == "pat1_left_hand" then PatternSide(true)
                    else if name == "pat1_right_hand" then PatternSide(false)
                    else Unused)
  {
    SuffixAfterDot(front, name);
    MissingChar(name, "location", 'o');
    MissingChar(name, "rotation_quaternion", 'o');
    OccursAfterDot(front, name, "pat1");
  }

  /** Any property name containing "location" is read as a location,
      whatever else it holds. */
  lemma NameWithLocation(front: string, name: string)
    requires '.' !in name && Contains(name, "location")
    ensures RoleOf(front + "." + name) == Some(LocationAxis)
  {
    SuffixAfterDot(front, name);
  }

  /** So `delta_location` counts as a location channel. */
  lemma DeltaLocationIsLocation(front: string)
    ensures RoleOf(front + "." + "delta_location") == Some(LocationAxis)
  {
    EndsWith("delta_", "location");
    assert "delta_" + "location" == "delta_location";
    NameWithLocation(front, "delta_location");
  }

  /** A data path without '.' is rejected. */
  lemma DotlessPathRejected()
    ensures RoleOf("location") == None
  {
  }
}
