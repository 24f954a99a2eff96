/** The animation file's curve model as the importer sees it: a curve has a
    type, a channel and a list of keyframes ordered by frame. */
module Curves {
  import opened Values

  datatype Keyframe<V> = Keyframe(frame: nat, value: V)

  /** `GMTCurveType`. Only LOCATION, ROTATION and PATTERN_HAND are told
      apart by the importer; every other member is an `OtherType`. */
  datatype CurveType = Location | Rotation | PatternHand | OtherType(code: nat)

  /** `GMTCurveChannel`. Only the hand channels are told apart. */
  datatype Channel = LeftHand | RightHand | UnkHand | OtherChannel(code: nat)

  /** The channel a freshly constructed curve gets; it is not a hand channel. */
  const DefaultChannel: Channel := OtherChannel(0)

  /** A keyframe value. The file stores positions as 3-tuples and rotations
      as (x, y, z, w) tuples; after conversion a rotation is an editor
      quaternion. Pattern data is kept as raw integer codes. */
  datatype Value =
    | Vector(v: Vec3)
    | EngineRotation(g: GmtQuat)
    | Quaternion(q: Quat)
    | Codes(codes: seq<int>)

  datatype Curve = Curve(kind: CurveType, channel: Channel, keyframes: seq<Keyframe<Value>>)

  /** `GMTCurve(kind)`: a curve without keyframes. */
  function EmptyCurve(kind: CurveType): Curve {
    Curve(kind, DefaultChannel, [])
  }

  /** Frames strictly increase along the keyframe list, so no two keyframes
      share a frame. */
  predicate Increasing<V>(keys: seq<Keyframe<V>>) {
    forall i, j :: 0 <= i < j < |keys| ==> keys[i].frame < keys[j].frame
  }

  /** The frames that carry a keyframe. */
  function FrameSet<V>(keys: seq<Keyframe<V>>): set<nat> {
    set k | 0 <= k < |keys| :: keys[k].frame
  }

  /** `get_end_frame()`: the frame of the last keyframe. */
  function EndFrame<V>(keys: seq<Keyframe<V>>): (r: nat)
    requires |keys| > 0
    ensures exists k :: 0 <= k < |keys| && keys[k].frame == r
    ensures Increasing(keys) ==> forall f :: f in FrameSet(keys) ==> f <= r
  {
    keys[|keys| - 1].frame
  }

  /** Every value has the shape the file gives a curve of this type. */
  predicate EngineTyped(c: Curve) {
    && (c.kind == Location ==> forall k :: 0 <= k < |c.keyframes| ==> c.keyframes[k].value.Vector?)
    && (c.kind == Rotation ==> forall k :: 0 <= k < |c.keyframes| ==> c.keyframes[k].value.EngineRotation?)
  }

  /** Every value has the shape the editor gives a curve of this type. */
  predicate EditorTyped(c: Curve) {
    && (c.kind == Location ==> forall k :: 0 <= k < |c.keyframes| ==> c.keyframes[k].value.Vector?)
    && (c.kind == Rotation ==> forall k :: 0 <= k < |c.keyframes| ==> c.keyframes[k].value.Quaternion?)
  }

  /** Two keyframe lists with the same frames position by position have the
      same frame set and are ordered alike, whatever their values. */
  lemma SameFrames<U, V>(a: seq<Keyframe<U>>, b: seq<Keyframe<V>>)
    requires |a| == |b| && forall k :: 0 <= k < |a| ==> a[k].frame == b[k].frame
    ensures FrameSet(a) == FrameSet(b)
    ensures Increasing(a) <==> Increasing(b)
  {
    forall f | f in FrameSet(a) ensures f in FrameSet(b) {
      var k :| 0 <= k < |a| && a[k].frame == f;
      assert b[k].frame == f;
    }
    forall f | f in FrameSet(b) ensures f in FrameSet(a) {
      var k :| 0 <= k < |b| && b[k].frame == f;
      assert a[k].frame == f;
    }
  }
}
