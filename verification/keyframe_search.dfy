/** Neighbour lookup on a keyframe list, as the curve merge does it through
    a frame-keyed dictionary (blender/importer.py:419-449): the exact key at
    a frame, the last key below it, the first key above it, and the sampled
    value built from those. Searches return positions in the list. */
module KeyframeSearch {
  import opened Outcomes
  import opened Curves

  /** `curve_dict.get(i)`: the position of the keyframe at frame `f`. When a
      frame occurs twice the later keyframe wins, as in a dictionary built
      from the list. */
  function IndexOf<V>(keys: seq<Keyframe<V>>, f: nat): (r: Option<nat>)
    ensures r.Some? ==> r.value < |keys| && keys[r.value].frame == f
    ensures r.Some? ==> forall k :: r.value < k < |keys| ==> keys[k].frame != f
    ensures r.None? <==> f !in FrameSet(keys)
  {
    if |keys| == 0 then None
    else if keys[|keys| - 1].frame == f then Some(|keys| - 1)
    else
      var r := IndexOf(keys[..|keys| - 1], f);
      assert FrameSet(keys) == FrameSet(keys[..|keys| - 1]) + {keys[|keys| - 1].frame};
      r
  }

  /** `next(k for k in reversed(curve_dict) if k < i)`: scanning from the
      end, the first keyframe whose frame is below `i`. */
  function LastBelow<V>(keys: seq<Keyframe<V>>, i: nat): (r: Option<nat>)
    ensures r.Some? ==> r.value < |keys| && keys[r.value].frame < i
    ensures r.Some? ==> forall k :: r.value < k < |keys| ==> keys[k].frame >= i
    ensures r.None? ==> forall k :: 0 <= k < |keys| ==> keys[k].frame >= i
  {
    if |keys| == 0 then None
    else if keys[|keys| - 1].frame < i then Some(|keys| - 1)
    else LastBelow(keys[..|keys| - 1], i)
  }

  /** `next(k for k in curve_dict if k > i)`: scanning from the start, the
      first keyframe whose frame is above `i`. */
  function FirstAbove<V>(keys: seq<Keyframe<V>>, i: nat): (r: Option<nat>)
    ensures r.Some? ==> r.value < |keys| && keys[r.value].frame > i
    ensures r.Some? ==> forall k :: 0 <= k < r.value ==> keys[k].frame <= i
    ensures r.None? ==> forall k :: 0 <= k < |keys| ==> keys[k].frame <= i
  {
    if |keys| == 0 then None
    else
      match FirstAbove(keys[..|keys| - 1], i)
      case Some(k) => Some(k)
      case None => if keys[|keys| - 1].frame > i then Some(|keys| - 1) else None
  }

  /** The interpolation factor `(i - less) / (more - less)`: 0 at `less`,
      1 at `more`, and strictly between them for a frame strictly between. */
  function Factor(less: nat, more: nat, i: nat): (r: real)
    requires less != more
    ensures i == less ==> r == 0.0
    ensures i == more ==> r == 1.0
    ensures less < i < more ==> 0.0 < r < 1.0
  {
    var n, d := i as real - less as real, more as real - less as real;
    var t := n / d;
    assert t * d == n;
    assert i == more ==> n == d && d / d == 1.0;
    t
  }

  /** The value of a curve at frame `i` as the merge reads it: the keyframe's
      own value where there is one; otherwise `lerp` between the last key
      below and the first key above, where a missing side falls back to the
      first or last keyframe, and the keyframe itself is used when both sides
      land on the same frame. */
  function Sample<V>(keys: seq<Keyframe<V>>, i: nat, lerp: (V, V, real) -> V): (r: V)
    requires |keys| > 0
    ensures i in FrameSet(keys) ==> exists k :: 0 <= k < |keys| && keys[k].frame == i && r == keys[k].value
    ensures || (exists k :: 0 <= k < |keys| && r == keys[k].value)
            || (exists l, m :: 0 <= l < |keys| && 0 <= m < |keys| && keys[l].frame != keys[m].frame
                  && r == lerp(keys[l].value, keys[m].value, Factor(keys[l].frame, keys[m].frame, i)))
  {
    match IndexOf(keys, i)
    case Some(k) => keys[k].value
    case None =>
      var less := match LastBelow(keys, i) case Some(k) => k case None => 0;
      var more := match FirstAbove(keys, i) case Some(k) => k case None => |keys| - 1;
      if keys[less].frame != keys[more].frame then
        lerp(keys[less].value, keys[more].value, Factor(keys[less].frame, keys[more].frame, i))
      else keys[less].value
  }

  /** A keyed frame samples to its own keyframe's value. */
  lemma SampleAtKey<V>(keys: seq<Keyframe<V>>, i: nat, lerp: (V, V, real) -> V, k: nat)
    requires Increasing(keys) && k < |keys| && keys[k].frame == i
    ensures Sample(keys, i, lerp) == keys[k].value
  {
    var j := IndexOf(keys, i).value;
    assert keys[j].frame == keys[k].frame;
  }

  /** A frame before the first or after the last key samples to that end's
      value, unchanged. */
  lemma SampleBeyondEnds<V>(keys: seq<Keyframe<V>>, i: nat, lerp: (V, V, real) -> V)
    requires |keys| > 0 && Increasing(keys)
    ensures i < keys[0].frame ==> Sample(keys, i, lerp) == keys[0].value
    ensures i > keys[|keys| - 1].frame ==> Sample(keys, i, lerp) == keys[|keys| - 1].value
  {
    if IndexOf(keys, i).None? {
      BracketIsAdjacent(keys, i);
    }
  }

  /** A frame strictly between two adjacent keys interpolates them, with a
      factor in (0, 1). */
  lemma SampleBetween<V>(keys: seq<Keyframe<V>>, i: nat, lerp: (V, V, real) -> V, l: nat)
    requires Increasing(keys) && l + 1 < |keys| && keys[l].frame < i < keys[l + 1].frame
    ensures 0.0 < Factor(keys[l].frame, keys[l + 1].frame, i) < 1.0
    ensures Sample(keys, i, lerp)
            == lerp(keys[l].value, keys[l + 1].value, Factor(keys[l].frame, keys[l + 1].frame, i))
  {
    BracketIsAdjacent(keys, i);
  }

  /** A one-key curve samples to its key's value everywhere. */
  lemma SampleSingle<V>(keys: seq<Keyframe<V>>, i: nat, lerp: (V, V, real) -> V)
    requires |keys| == 1
    ensures Sample(keys, i, lerp) == keys[0].value
  {
  }

  /** Between two keyframes the two searches find exactly the adjacent pair
      around `i`; outside the keyed range both fall back to the same end. */
  lemma BracketIsAdjacent<V>(keys: seq<Keyframe<V>>, i: nat)
    requires |keys| > 0 && Increasing(keys) && i !in FrameSet(keys)
    ensures var less := match LastBelow(keys, i) case Some(k) => k case None => 0;
            var more := match FirstAbove(keys, i) case Some(k) => k case None => |keys| - 1;
            && (i < keys[0].frame ==> less == 0 && more == 0)
            && (i > keys[|keys| - 1].frame ==> less == |keys| - 1 && more == |keys| - 1)
            && (keys[0].frame < i < keys[|keys| - 1].frame ==>
                  more == less + 1 && keys[less].frame < i < keys[more].frame)
  {
    var lb := LastBelow(keys, i);
    var fa := FirstAbove(keys, i);
    assert forall k :: 0 <= k < |keys| ==> keys[k].frame != i by {
      forall k | 0 <= k < |keys| ensures keys[k].frame != i {
        assert keys[k].frame in FrameSet(keys);
      }
    }
    if keys[0].frame < i < keys[|keys| - 1].frame {
      assert lb.Some? && fa.Some?;
      var l, m := lb.value, fa.value;
      assert l < m;
    }
  }
}
