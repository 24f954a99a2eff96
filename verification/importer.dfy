/** The pure parts of the importer (blender/importer.py): adding one curve
    into another (`add_curve`), folding the vector bone into the center bone
    (`merge_vector`), the curve-type to property-name mapping and the guard
    at the top of `import_curve`. Interpolation (`lerp`, `slerp`) is a
    parameter; only frame choice, neighbour choice and combine order are
    modelled. */
module Importer {
  import opened Outcomes
  import opened Values
  import opened Curves
  import opened KeyframeSearch
  import opened CurveMerge

  datatype AddError = DifferentTypes | IncompatibleType | EmptyOther

  /** What `add_curve` relies on: values of the curve's own shape, keyframes
      ordered by frame. */
  predicate Mergeable(c: Curve) {
    EditorTyped(c) && Increasing(c.keyframes)
  }

  /** The position values of a LOCATION curve. */
  function VectorKeys(keys: seq<Keyframe<Value>>): (r: seq<Keyframe<Vec3>>)
    requires forall k :: 0 <= k < |keys| ==> keys[k].value.Vector?
    ensures |r| == |keys|
    ensures forall k :: 0 <= k < |r| ==> r[k].frame == keys[k].frame && r[k].value == keys[k].value.v
  {
    seq(|keys|, k requires 0 <= k < |keys| => Keyframe(keys[k].frame, keys[k].value.v))
  }

  /** The quaternion values of a ROTATION curve. */
  function QuatKeys(keys: seq<Keyframe<Value>>): (r: seq<Keyframe<Quat>>)
    requires forall k :: 0 <= k < |keys| ==> keys[k].value.Quaternion?
    ensures |r| == |keys|
    ensures forall k :: 0 <= k < |r| ==> r[k].frame == keys[k].frame && r[k].value == keys[k].value.q
  {
    seq(|keys|, k requires 0 <= k < |keys| => Keyframe(keys[k].frame, keys[k].value.q))
  }

  function FromVectorKeys(keys: seq<Keyframe<Vec3>>): (r: seq<Keyframe<Value>>)
    ensures |r| == |keys|
    ensures forall k :: 0 <= k < |r| ==> r[k].frame == keys[k].frame && r[k].value == Vector(keys[k].value)
  {
    seq(|keys|, k requires 0 <= k < |keys| => Keyframe(keys[k].frame, Vector(keys[k].value)))
  }

  function FromQuatKeys(keys: seq<Keyframe<Quat>>): (r: seq<Keyframe<Value>>)
    ensures |r| == |keys|
    ensures forall k :: 0 <= k < |r| ==> r[k].frame == keys[k].frame && r[k].value == Quaternion(keys[k].value)
  {
    seq(|keys|, k requires 0 <= k < |keys| => Keyframe(keys[k].frame, Quaternion(keys[k].value)))
  }

  /** An empty LOCATION or ROTATION curve is first given one keyframe at
      frame 0 holding the identity of its combine operation. */
  function Seeded(c: Curve): (r: Curve)
    requires Mergeable(c)
    ensures Mergeable(r) && r.kind == c.kind && r.channel == c.channel
    ensures |c.keyframes| > 0 || !(c.kind == Location || c.kind == Rotation) ==> r == c
    ensures |c.keyframes| == 0 && c.kind == Location ==> r.keyframes == [Keyframe(0, Vector(Zero))]
    ensures |c.keyframes| == 0 && c.kind == Rotation ==> r.keyframes == [Keyframe(0, Quaternion(Identity))]
  {
    if |c.keyframes| > 0 then c
    else if c.kind == Location then c.(keyframes := [Keyframe(0, Vector(Zero))])
    else if c.kind == Rotation then c.(keyframes := [Keyframe(0, Quaternion(Identity))])
    else c
  }

  /** The merged keyframes of two LOCATION curves: vector sum, primary first. */
  function MergeLocations(a: seq<Keyframe<Value>>, b: seq<Keyframe<Value>>,
                          lerpV: (Vec3, Vec3, real) -> Vec3): (r: seq<Keyframe<Value>>)
    requires |a| > 0 && |b| > 0 && Increasing(a) && Increasing(b)
    requires forall k :: 0 <= k < |a| ==> a[k].value.Vector?
    requires forall k :: 0 <= k < |b| ==> b[k].value.Vector?
    ensures Increasing(r) && FrameSet(r) == FrameSet(a) + FrameSet(b)
    ensures forall k :: 0 <= k < |r| ==> r[k].value.Vector?
    ensures forall k :: 0 <= k < |r| ==>
              r[k].value == Vector(Add(Sample(VectorKeys(a), r[k].frame, lerpV),
                                       Sample(VectorKeys(b), r[k].frame, lerpV)))
  {
    SameFrames(a, VectorKeys(a));
    SameFrames(b, VectorKeys(b));
    var m := Merge(VectorKeys(a), VectorKeys(b), Add, lerpV);
    SameFrames(m, FromVectorKeys(m));
    FromVectorKeys(m)
  }

  /** The merged keyframes of two ROTATION curves: quaternion product,
      primary on the left. */
  function MergeRotations(a: seq<Keyframe<Value>>, b: seq<Keyframe<Value>>,
                          slerpQ: (Quat, Quat, real) -> Quat): (r: seq<Keyframe<Value>>)
    requires |a| > 0 && |b| > 0 && Increasing(a) && Increasing(b)
    requires forall k :: 0 <= k < |a| ==> a[k].value.Quaternion?
    requires forall k :: 0 <= k < |b| ==> b[k].value.Quaternion?
    ensures Increasing(r) && FrameSet(r) == FrameSet(a) + FrameSet(b)
    ensures forall k :: 0 <= k < |r| ==> r[k].value.Quaternion?
    ensures forall k :: 0 <= k < |r| ==>
              r[k].value == Quaternion(Mul(Sample(QuatKeys(a), r[k].frame, slerpQ),
                                           Sample(QuatKeys(b), r[k].frame, slerpQ)))
  {
    SameFrames(a, QuatKeys(a));
    SameFrames(b, QuatKeys(b));
    var m := Merge(QuatKeys(a), QuatKeys(b), Mul, slerpQ);
    SameFrames(m, FromQuatKeys(m));
    FromQuatKeys(m)
  }

  /** `add_curve(curve, other)`: the new keyframes of `curve`. It fails when
      the types differ, when the type is neither LOCATION nor ROTATION, and
      when `other` has no keyframes (the source reads `other.keyframes[0]`). */
  function AddCurve(curve: Curve, other: Curve,
                    lerpV: (Vec3, Vec3, real) -> Vec3, slerpQ: (Quat, Quat, real) -> Quat): (r: Result<Curve, AddError>)
    requires Mergeable(curve) && Mergeable(other)
    ensures curve.kind != other.kind ==> r == Err(DifferentTypes)
    ensures curve.kind == other.kind && !(curve.kind == Location || curve.kind == Rotation) ==>
              r == Err(IncompatibleType)
    ensures curve.kind == other.kind && (curve.kind == Location || curve.kind == Rotation) ==>
              (r.Ok? <==> |other.keyframes| > 0)
    ensures r.Err? ==> r.error != EmptyOther || |other.keyframes| == 0
    ensures r.Ok? ==> r.value.kind == curve.kind && r.value.channel == curve.channel && Mergeable(r.value)
    ensures r.Ok? ==> FrameSet(r.value.keyframes) == FrameSet(Seeded(curve).keyframes) + FrameSet(other.keyframes)
    ensures r.Ok? && curve.kind == Location ==>
              r.value.keyframes == MergeLocations(Seeded(curve).keyframes, other.keyframes, lerpV)
    ensures r.Ok? && curve.kind == Rotation ==>
              r.value.keyframes == MergeRotations(Seeded(curve).keyframes, other.keyframes, slerpQ)
  {
    if curve.kind != other.kind then Err(DifferentTypes)
    else if !(curve.kind == Location || curve.kind == Rotation) then Err(IncompatibleType)
    else
      var seeded := Seeded(curve);
      if |other.keyframes| == 0 then Err(EmptyOther)
      else if curve.kind == Location then
        Ok(curve.(keyframes := MergeLocations(seeded.keyframes, other.keyframes, lerpV)))
      else
        Ok(curve.(keyframes := MergeRotations(seeded.keyframes, other.keyframes, slerpQ)))
  }

  /** At a frame both curves key, the merged value is the two keys combined,
      primary first; no interpolation takes part. */
  lemma MergeAtSharedKey<V>(a: seq<Keyframe<V>>, b: seq<Keyframe<V>>,
                            add: (V, V) -> V, lerp: (V, V, real) -> V, k: nat, ka: nat, kb: nat)
    requires |a| > 0 && |b| > 0 && Increasing(a) && Increasing(b)
    requires k < |Merge(a, b, add, lerp)| && ka < |a| && kb < |b|
    requires a[ka].frame == Merge(a, b, add, lerp)[k].frame == b[kb].frame
    ensures Merge(a, b, add, lerp)[k].value == add(a[ka].value, b[kb].value)
  {
    var f := a[ka].frame;
    SampleAtKey(a, f, lerp, ka);
    SampleAtKey(b, f, lerp, kb);
  }

  /** At a frame only the secondary keys, the primary contributes its value
      sampled from its neighbours, and the secondary its own key. */
  lemma MergeAtSecondaryKey<V>(a: seq<Keyframe<V>>, b: seq<Keyframe<V>>,
                               add: (V, V) -> V, lerp: (V, V, real) -> V, k: nat, kb: nat)
    requires |a| > 0 && |b| > 0 && Increasing(a) && Increasing(b)
    requires k < |Merge(a, b, add, lerp)| && kb < |b|
    requires Merge(a, b, add, lerp)[k].frame == b[kb].frame
    ensures Merge(a, b, add, lerp)[k].value == add(Sample(a, b[kb].frame, lerp), b[kb].value)
  {
    SampleAtKey(b, b[kb].frame, lerp, kb);
  }

  /** Keys at {0, 5, 10} and at {0, 3, 10} merge into keys at exactly
      {0, 3, 5, 10}: no frame is synthesised between them. */
  lemma MergeFramesExample<V>(u: V, v: V, w: V, x: V, y: V, z: V,
                              add: (V, V) -> V, lerp: (V, V, real) -> V)
    ensures var a := [Keyframe(0, u), Keyframe(5, v), Keyframe(10, w)];
            var b := [Keyframe(0, x), Keyframe(3, y), Keyframe(10, z)];
            FrameSet(Merge(a, b, add, lerp)) == {0, 3, 5, 10}
  {
    var a := [Keyframe(0, u), Keyframe(5, v), Keyframe(10, w)];
    var b := [Keyframe(0, x), Keyframe(3, y), Keyframe(10, z)];
    assert FrameSet(a) == {0, 5, 10} by {
      assert a[0].frame == 0 && a[1].frame == 5 && a[2].frame == 10;
    }
    assert FrameSet(b) == {0, 3, 10} by {
      assert b[0].frame == 0 && b[1].frame == 3 && b[2].frame == 10;
    }
  }

  /** Adding into an empty curve seeds it with the identity, so at every
      keyframe of the other curve the result is that keyframe's own value
      (0 + v for LOCATION, identity times q for ROTATION). */
  lemma EmptyPrimaryTakesOther(curve: Curve, other: Curve,
                               lerpV: (Vec3, Vec3, real) -> Vec3, slerpQ: (Quat, Quat, real) -> Quat)
    requires Mergeable(curve) && Mergeable(other)
    requires curve.kind == other.kind && (curve.kind == Location || curve.kind == Rotation)
    requires |curve.keyframes| == 0 && |other.keyframes| > 0
    ensures AddCurve(curve, other, lerpV, slerpQ).Ok?
    ensures var r := AddCurve(curve, other, lerpV, slerpQ).value.keyframes;
            forall j, k :: 0 <= j < |r| && 0 <= k < |other.keyframes| && r[j].frame == other.keyframes[k].frame ==>
              r[j].value == other.keyframes[k].value
  {
    var seeded := Seeded(curve);
    var r := AddCurve(curve, other, lerpV, slerpQ).value.keyframes;
    forall j, k | 0 <= j < |r| && 0 <= k < |other.keyframes| && r[j].frame == other.keyframes[k].frame
      ensures r[j].value == other.keyframes[k].value
    {
      var f := r[j].frame;
      if curve.kind == Location {
        var s := VectorKeys(seeded.keyframes);
        var o := VectorKeys(other.keyframes);
        SampleSingle(s, f, lerpV);
        SampleAtKey(o, f, lerpV, k);
        AddZeroLeft(o[k].value);
      } else {
        var s := QuatKeys(seeded.keyframes);
        var o := QuatKeys(other.keyframes);
        SampleSingle(s, f, slerpQ);
        SampleAtKey(o, f, slerpQ, k);
        MulIdentityLeft(o[k].value);
      }
    }
  }

  /** `GMTVectorVersion`. */
  datatype VectorVersion = NoVector | OldVector | DragonVector

  /** The two curves of a bone that `merge_vector` touches. */
  datatype Bone = Bone(location: Curve, rotation: Curve)

  predicate BoneMergeable(b: Bone) {
    Mergeable(b.location) && Mergeable(b.rotation)
  }

  /** Whether the vector bone's motion is added into the center bone. */
  predicate AddsVector(version: VectorVersion, isAuth: bool) {
    (version == OldVector && !isAuth) || version == DragonVector
  }

  /** The vector bone after the merge: both curves emptied. */
  const ResetVector: Bone := Bone(EmptyCurve(Location), EmptyCurve(Rotation))

  /** `merge_vector(center, vector, version, is_auth)`: returns the center and
      vector bones afterwards. */
  function MergeVector(center: Option<Bone>, vector: Option<Bone>, version: VectorVersion, isAuth: bool,
                       lerpV: (Vec3, Vec3, real) -> Vec3, slerpQ: (Quat, Quat, real) -> Quat)
    : (r: Result<(Option<Bone>, Option<Bone>), AddError>)
    requires center.Some? ==> BoneMergeable(center.value)
    requires vector.Some? ==> BoneMergeable(vector.value)
    ensures version == NoVector || center.None? || vector.None? ==> r == Ok((center, vector))
    ensures version != NoVector && center.Some? && vector.Some? && r.Ok? ==> r.value.1 == Some(ResetVector)
    ensures version != NoVector && center.Some? && vector.Some? && !AddsVector(version, isAuth) ==>
              r == Ok((center, Some(ResetVector)))
    ensures version != NoVector && center.Some? && vector.Some? && AddsVector(version, isAuth) ==>
              var c, v := center.value, vector.value;
              && (r.Ok? <==> AddCurve(c.location, v.location, lerpV, slerpQ).Ok?
                             && AddCurve(c.rotation, v.rotation, lerpV, slerpQ).Ok?)
              && (r.Ok? ==> r.value.0 == Some(Bone(AddCurve(c.location, v.location, lerpV, slerpQ).value,
                                                   AddCurve(c.rotation, v.rotation, lerpV, slerpQ).value)))
  {
    if version == NoVector || center.None? || vector.None? then Ok((center, vector))
    else if AddsVector(version, isAuth) then
      var c, v := center.value, vector.value;
      match AddCurve(c.location, v.location, lerpV, slerpQ)
      case Err(e) => Err(e)
      case Ok(location) =>
        match AddCurve(c.rotation, v.rotation, lerpV, slerpQ)
        case Err(e) => Err(e)
        case Ok(rotation) => Ok((Some(Bone(location, rotation)), Some(ResetVector)))
    else Ok((center, Some(ResetVector)))
  }

  /** `get_property_from_curve_type`: the editor property a curve animates,
      or the empty string for a type the importer does not handle. */
  function PropertyFromCurveType(kind: CurveType, channel: Channel): (r: string)
    ensures r == "" <==> kind.OtherType?
  {
    match kind
    case Location => "location"
    case Rotation => "rotation_quaternion"
    case PatternHand =>
      (match channel
       case LeftHand => "pat1_left_hand"
       case RightHand => "pat1_right_hand"
       case UnkHand => "pat1_unk2"
       case _ => "pat1_unk3")
    case OtherType(_) => ""
  }

  /** The property `import_curve` writes channels for. It stops at once for
      an unmapped type or a curve without keyframes, and pattern curves fall
      through to the final `return`. */
  function ImportedDataPath(c: Curve): (r: Option<string>)
    ensures r.Some? <==> (c.kind == Location || c.kind == Rotation) && |c.keyframes| > 0
    ensures r.Some? ==> r.value == PropertyFromCurveType(c.kind, c.channel)
  {
    var path := PropertyFromCurveType(c.kind, c.channel);
    if path == "" || |c.keyframes| == 0 then None
    else if path == "location" || path == "rotation_quaternion" then Some(path)
    else None
  }
}
