/** Axis-convention conversion between the animation file and the editor,
    and the pattern-code reshaping (blender/coordinate_converter.py). The
    position and rotation maps only permute and negate components, so they
    are exact bijections and keep the squared norm. */
module CoordinateConverter {
  import opened Outcomes
  import opened Values
  import opened Curves

  /** `pos_to_blender`: file position to editor position. */
  function PosToBlender(p: Vec3): (r: Vec3)
    ensures SqNorm3(r) == SqNorm3(p)
  {
    Vec3(-p.x, p.z, p.y)
  }

  /** `pos_from_blender`: editor position back to the file's convention. */
  function PosFromBlender(p: Vec3): (r: Vec3)
    ensures PosToBlender(r) == p
    ensures SqNorm3(r) == SqNorm3(p)
  {
    Vec3(-p.x, p.z, p.y)
  }

  /** `rot_to_blender`: an (x, y, z, w) file rotation to an editor quaternion. */
  function RotToBlender(g: GmtQuat): (r: Quat)
    ensures SqNormQuat(r) == SqNormGmt(g)
  {
    Quat(g.w, -g.x, g.z, g.y)
  }

  /** `rot_from_blender`: an editor quaternion back to an (x, y, z, w) tuple. */
  function RotFromBlender(q: Quat): (r: GmtQuat)
    ensures RotToBlender(r) == q
    ensures SqNormGmt(r) == SqNormQuat(q)
  {
    GmtQuat(-q.x, q.z, q.y, q.w)
  }

  lemma PosRoundTrip(p: Vec3)
    ensures PosFromBlender(PosToBlender(p)) == p
  {
  }

  lemma RotRoundTrip(g: GmtQuat)
    ensures RotFromBlender(RotToBlender(g)) == g
  {
  }

  /** A pattern keyframe value: the code at this keyframe and the code the
      hand moves to. */
  datatype PatternPair<T> = PatternPair(start: T, end: T)

  /** The two lists `pattern1_from_blender` returns. */
  datatype PatternColumns<T> = PatternColumns(starts: seq<T>, ends: seq<T>)

  /** The `IndexError` of `pattern[-1]` on an empty code list. */
  datatype PatternError = NoCodes

  /** `pattern1_from_blender`: pairs every code with the next one; the last
      code is paired with itself. An empty list fails, because the source
      reads `pattern[-1]`. */
  function Pattern1FromBlender<T>(codes: seq<T>): (r: Result<PatternColumns<T>, PatternError>)
    ensures r.Ok? <==> |codes| > 0
    ensures r.Ok? ==> r.value.starts == codes && |r.value.ends| == |codes|
    ensures r.Ok? ==> forall i :: 0 <= i < |codes| - 1 ==> r.value.ends[i] == codes[i + 1]
    ensures r.Ok? ==> r.value.ends[|codes| - 1] == codes[|codes| - 1]
  {
    if |codes| == 0 then Err(NoCodes)
    else Ok(PatternColumns(codes, codes[1..] + [codes[|codes| - 1]]))
  }

  /** The `map(lambda s, e: ..., starts, ends)` pairing of the two columns. */
  function Pairs<T>(cols: PatternColumns<T>): (r: seq<PatternPair<T>>)
    requires |cols.starts| == |cols.ends|
    ensures |r| == |cols.starts|
    ensures forall i :: 0 <= i < |r| ==> r[i].start == cols.starts[i] && r[i].end == cols.ends[i]
  {
    seq(|cols.starts|, i requires 0 <= i < |cols.starts| => PatternPair(cols.starts[i], cols.ends[i]))
  }

  /** `pattern1_to_blender`: keeps the start code of every pair. The source
      wraps each code in a one-element tuple (the value of a single-channel
      curve); that wrapper is left implicit here. */
  function Pattern1ToBlender<T>(pairs: seq<PatternPair<T>>): (r: seq<T>)
    ensures |r| == |pairs|
    ensures forall i :: 0 <= i < |r| ==> r[i] == pairs[i].start
  {
    seq(|pairs|, i requires 0 <= i < |pairs| => pairs[i].start)
  }

  /** Reading back what `pattern1_from_blender` wrote recovers the codes. */
  lemma PatternRoundTrip<T>(codes: seq<T>)
    requires |codes| > 0
    ensures Pattern1FromBlender(codes).Ok?
    ensures Pattern1ToBlender(Pairs(Pattern1FromBlender(codes).value)) == codes
  {
    var back := Pattern1ToBlender(Pairs(Pattern1FromBlender(codes).value));
    assert |back| == |codes|;
    assert forall i :: 0 <= i < |codes| ==> back[i] == codes[i];
  }

  /** The codes [2, 5, 5] become the pairs (2, 5), (5, 5), (5, 5). */
  lemma PatternPairingExample()
    ensures Pattern1FromBlender([2, 5, 5]).Ok?
    ensures Pairs(Pattern1FromBlender([2, 5, 5]).value)
            == [PatternPair(2, 5), PatternPair(5, 5), PatternPair(5, 5)]
    ensures Pattern1ToBlender([PatternPair(2, 5), PatternPair(5, 5), PatternPair(5, 5)]) == [2, 5, 5]
  {
    var ps := Pairs(Pattern1FromBlender([2, 5, 5]).value);
    assert ps[0] == PatternPair(2, 5) && ps[1] == PatternPair(5, 5) && ps[2] == PatternPair(5, 5);
  }

  /** `pattern2_to_blender`: the second pattern kind is passed through. */
  function Pattern2ToBlender<T>(pattern: seq<T>): (r: seq<T>)
    ensures r == pattern
  {
    pattern
  }

  /** `pattern2_from_blender`: likewise passed through. */
  function Pattern2FromBlender<T>(pattern: seq<T>): (r: seq<T>)
    ensures r == pattern
  {
    pattern
  }

  /** `convert_gmt_curve_to_blender`: rewrites the values of a LOCATION or
      ROTATION curve into the editor's convention and leaves every other
      curve alone. Frames, keyframe count, type and channel never change. */
  function ConvertGmtCurveToBlender(c: Curve): (r: Curve)
    requires EngineTyped(c)
    ensures EditorTyped(r)
    ensures r.kind == c.kind && r.channel == c.channel
    ensures |r.keyframes| == |c.keyframes|
    ensures forall k :: 0 <= k < |r.keyframes| ==> r.keyframes[k].frame == c.keyframes[k].frame
    ensures c.kind == Location ==> forall k :: 0 <= k < |r.keyframes| ==>
              r.keyframes[k].value == Vector(PosToBlender(c.keyframes[k].value.v))
    ensures c.kind == Rotation ==> forall k :: 0 <= k < |r.keyframes| ==>
              r.keyframes[k].value == Quaternion(RotToBlender(c.keyframes[k].value.g))
    ensures !(c.kind == Location || c.kind == Rotation) ==> r == c
  {
    match c.kind
    case Location =>
      c.(keyframes := seq(|c.keyframes|, k requires 0 <= k < |c.keyframes| =>
        Keyframe(c.keyframes[k].frame, Vector(PosToBlender(c.keyframes[k].value.v)))))
    case Rotation =>
      c.(keyframes := seq(|c.keyframes|, k requires 0 <= k < |c.keyframes| =>
        Keyframe(c.keyframes[k].frame, Quaternion(RotToBlender(c.keyframes[k].value.g)))))
    case _ => c
  }

  /** Conversion loses nothing: mapping the inverse functions over the
      converted values gives back the file's values. */
  lemma ConvertedCurveIsRecoverable(c: Curve, k: nat)
    requires EngineTyped(c) && k < |c.keyframes|
    ensures c.kind == Location ==>
              PosFromBlender(ConvertGmtCurveToBlender(c).keyframes[k].value.v) == c.keyframes[k].value.v
    ensures c.kind == Rotation ==>
              RotFromBlender(ConvertGmtCurveToBlender(c).keyframes[k].value.q) == c.keyframes[k].value.g
  {
  }
}
