/** The dense merge scan of `add_curve` (blender/importer.py:418-453), over
    any value type: `add` combines a primary value with a secondary one and
    `lerp` interpolates within one curve. */
module CurveMerge {
  import opened Curves
  import opened KeyframeSearch

  /** The scan over frames `i..last`: a keyframe is emitted only at frames
      where one of the curves has an explicit key, and it carries the value
      `at` gives for its frame (the merge passes the combined samples). */
  function Scan<V>(a: seq<Keyframe<V>>, b: seq<Keyframe<V>>, i: nat, last: nat, at: nat -> V): (r: seq<Keyframe<V>>)
    ensures Increasing(r)
    ensures forall k :: 0 <= k < |r| ==> i <= r[k].frame <= last
    ensures forall f :: f in FrameSet(r) <==> i <= f <= last && (f in FrameSet(a) || f in FrameSet(b))
    ensures forall k :: 0 <= k < |r| ==> r[k].value == at(r[k].frame)
    decreases last + 1 - i
  {
    if i > last then []
    else
      var rest := Scan(a, b, i + 1, last, at);
      if IndexOf(a, i).Some? || IndexOf(b, i).Some? then
        var r := [Keyframe(i, at(i))] + rest;
        ConsFrameSet(r[0], rest);
        ConsKeeps(r[0], rest, last, at);
        r
      else rest
  }

  /** Putting a keyframe in front of later ones, within the same bound and
      valued by `at`, keeps the scan's shape. */
  lemma ConsKeeps<V>(key: Keyframe<V>, rest: seq<Keyframe<V>>, last: nat, at: nat -> V)
    requires key.frame <= last && key.value == at(key.frame)
    requires Increasing(rest)
    requires forall k :: 0 <= k < |rest| ==> key.frame < rest[k].frame <= last
    requires forall k :: 0 <= k < |rest| ==> rest[k].value == at(rest[k].frame)
    ensures Increasing([key] + rest)
    ensures forall k :: 0 <= k < |rest| + 1 ==> key.frame <= ([key] + rest)[k].frame <= last
    ensures forall k :: 0 <= k < |rest| + 1 ==> ([key] + rest)[k].value == at(([key] + rest)[k].frame)
  {
    var r := [key] + rest;
    assert forall k :: 0 < k < |r| ==> r[k] == rest[k - 1];
  }

  /** Putting a keyframe in front adds exactly its frame. */
  lemma ConsFrameSet<V>(key: Keyframe<V>, rest: seq<Keyframe<V>>)
    ensures FrameSet([key] + rest) == {key.frame} + FrameSet(rest)
  {
    var r := [key] + rest;
    assert r[0].frame == key.frame;
    forall f | f in FrameSet(r) ensures f in {key.frame} + FrameSet(rest) {
      var k :| 0 <= k < |r| && r[k].frame == f;
      if k > 0 { assert rest[k - 1].frame == f; }
    }
    forall f | f in FrameSet(rest) ensures f in FrameSet(r) {
      var k :| 0 <= k < |rest| && rest[k].frame == f;
      assert r[k + 1].frame == f;
    }
  }

  /** `add_curve`'s loop over `range(max(end frames) + 1)`. */
  function Merge<V>(a: seq<Keyframe<V>>, b: seq<Keyframe<V>>,
                    add: (V, V) -> V, lerp: (V, V, real) -> V): (r: seq<Keyframe<V>>)
    requires |a| > 0 && |b| > 0 && Increasing(a) && Increasing(b)
    ensures Increasing(r)
    ensures FrameSet(r) == FrameSet(a) + FrameSet(b)
    ensures forall k :: 0 <= k < |r| ==>
              r[k].value == add(Sample(a, r[k].frame, lerp), Sample(b, r[k].frame, lerp))
  {
    var last := if EndFrame(a) >= EndFrame(b) then EndFrame(a) else EndFrame(b);
    Scan(a, b, 0, last, f => add(Sample(a, f, lerp), Sample(b, f, lerp)))
  }
}
