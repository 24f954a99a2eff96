/** Constant-interpolation duplication (blender/exporter.py:376-393). The
    file format only interpolates linearly, so a key that holds its value
    until the next one is exported as two keys: the original, and a copy of
    its value one frame before the next key. `Expand` defines the result;
    `DuplicateConstantKeys` is the exporter's index-shifting insertion loop,
    proved to compute it. */
module ConstantDuplication {

  /** Frames and values of an exported curve, as two parallel lists. */
  datatype Track<V> = Track(frames: seq<int>, values: seq<V>)

  /** Whether a key is inserted after original key `i`: every axis holds its
      value at `i` and the gap to the next key is more than one frame. */
  predicate Holds(frames: seq<int>, constant: seq<bool>, i: nat)
    requires i + 1 < |frames| && |constant| == |frames|
  {
    constant[i] && frames[i + 1] - frames[i] > 1
  }

  /** The number of keys inserted among the first `n` originals. */
  function Inserted(frames: seq<int>, constant: seq<bool>, n: nat): nat
    requires n <= |frames| && |constant| == |frames|
  {
    if n <= 1 then 0
    else Inserted(frames, constant, n - 1) + (if Holds(frames, constant, n - 2) then 1 else 0)
  }

  /** The exported track of the first `n` original keys. */
  function Expand<V>(frames: seq<int>, values: seq<V>, constant: seq<bool>, n: nat): (r: Track<V>)
    requires |values| == |frames| && |constant| == |frames| && n <= |frames|
    ensures |r.frames| == |r.values| == n + Inserted(frames, constant, n)
    ensures n > 0 ==> r.frames[|r.frames| - 1] == frames[n - 1] && r.values[|r.values| - 1] == values[n - 1]
  {
    if n == 0 then Track([], [])
    else if n == 1 then Track([frames[0]], [values[0]])
    else
      var t := Expand(frames, values, constant, n - 1);
      if Holds(frames, constant, n - 2) then
        Track(t.frames + [frames[n - 1] - 1, frames[n - 1]], t.values + [values[n - 2], values[n - 1]])
      else
        Track(t.frames + [frames[n - 1]], t.values + [values[n - 1]])
  }

  /** Inserting `x` between a finished prefix and the unprocessed rest. */
  lemma InsertAfter<T>(done: seq<T>, rest: seq<T>, x: T)
    requires |rest| > 0
    ensures (done + rest)[..|done|] + [x] + (done + rest)[|done|..] == (done + [x, rest[0]]) + rest[1..]
  {
    assert (done + rest)[..|done|] == done;
    assert (done + rest)[|done|..] == rest;
    assert rest == [rest[0]] + rest[1..];
  }

  /** "The first `i + 1` originals are expanded, the rest is untouched":
      the state of the exporter's loop before turn `i`. */
  ghost predicate LoopState<V>(frames: seq<int>, values: seq<V>, constant: seq<bool>, i: nat, j: nat,
                         fs: seq<int>, vs: seq<V>)
    requires |values| == |frames| && |constant| == |frames| && i < |frames|
  {
    && j == Inserted(frames, constant, i + 1)
    && fs == Expand(frames, values, constant, i + 1).frames + frames[i + 1..]
    && vs == Expand(frames, values, constant, i + 1).values + values[i + 1..]
  }

  /** In the loop state, original `i` sits at `i + j` with its successor
      right after it. */
  lemma LoopPositions<V>(frames: seq<int>, values: seq<V>, constant: seq<bool>, i: nat, j: nat,
                         fs: seq<int>, vs: seq<V>)
    requires |values| == |frames| && |constant| == |frames| && i + 1 < |frames|
    requires LoopState(frames, values, constant, i, j, fs, vs)
    ensures i + j + 1 < |fs| && |vs| == |fs|
    ensures fs[i + j] == frames[i] && fs[i + j + 1] == frames[i + 1] && vs[i + j] == values[i]
  {
    var done := Expand(frames, values, constant, i + 1);
    assert |done.frames| == i + j + 1;
  }

  /** A turn that inserts a held key reaches the state of the next turn. */
  lemma LoopHeld<V>(frames: seq<int>, values: seq<V>, constant: seq<bool>, i: nat, j: nat,
                    fs: seq<int>, vs: seq<V>)
    requires |values| == |frames| && |constant| == |frames| && i + 1 < |frames|
    requires LoopState(frames, values, constant, i, j, fs, vs)
    requires Holds(frames, constant, i)
    ensures i + j + 1 < |fs| && |vs| == |fs|
    ensures LoopState(frames, values, constant, i + 1, j + 1,
                      fs[..i + j + 1] + [fs[i + j + 1] - 1] + fs[i + j + 1..],
                      vs[..i + j + 1] + [vs[i + j]] + vs[i + j + 1..])
  {
    var done := Expand(frames, values, constant, i + 1);
    var k := i + j;
    assert |done.frames| == k + 1;
    InsertAfter(done.frames, frames[i + 1..], frames[i + 1] - 1);
    InsertAfter(done.values, values[i + 1..], values[i]);
    assert frames[i + 1..][1..] == frames[i + 2..];
    assert values[i + 1..][1..] == values[i + 2..];
    assert fs[k + 1] == frames[i + 1];
  }

  /** A turn that inserts nothing reaches the state of the next turn. */
  lemma LoopKept<V>(frames: seq<int>, values: seq<V>, constant: seq<bool>, i: nat, j: nat,
                    fs: seq<int>, vs: seq<V>)
    requires |values| == |frames| && |constant| == |frames| && i + 1 < |frames|
    requires LoopState(frames, values, constant, i, j, fs, vs)
    requires !Holds(frames, constant, i)
    ensures LoopState(frames, values, constant, i + 1, j, fs, vs)
  {
    var done := Expand(frames, values, constant, i + 1);
    assert frames[i + 1..] == [frames[i + 1]] + frames[i + 2..];
    assert values[i + 1..] == [values[i + 1]] + values[i + 2..];
  }

  /** Before the loop only the first original is expanded. */
  lemma LoopEntry<V>(frames: seq<int>, values: seq<V>, constant: seq<bool>)
    requires |values| == |frames| && |constant| == |frames| && |frames| > 0
    ensures 0 == Inserted(frames, constant, 1)
    ensures frames == Expand(frames, values, constant, 1).frames + frames[1..]
    ensures values == Expand(frames, values, constant, 1).values + values[1..]
  {
    assert frames == [frames[0]] + frames[1..];
    assert values == [values[0]] + values[1..];
  }

  /** The exporter's loop: `j` counts the keys inserted so far, so original
      key `i` sits at position `i + j` of the growing lists. */
  method DuplicateConstantKeys<V>(frames: seq<int>, values: seq<V>, constant: seq<bool>)
    returns (fs: seq<int>, vs: seq<V>)
    requires |values| == |frames| && |constant| == |frames|
    ensures Track(fs, vs) == Expand(frames, values, constant, |frames|)
  {
    fs, vs := frames, values;
    if |frames| == 0 {
      return;
    }
    var j := 0;
    var i := 0;
    LoopEntry(frames, values, constant);
    while i + 1 < |constant|
      invariant 0 <= i < |frames|
      invariant LoopState(frames, values, constant, i, j, fs, vs)
    {
      LoopPositions(frames, values, constant, i, j, fs, vs);
      var k := i + j;
      if constant[i] && fs[k + 1] - fs[k] > 1 {
        LoopHeld(frames, values, constant, i, j, fs, vs);
        fs, vs, j := fs[..k + 1] + [fs[k + 1] - 1] + fs[k + 1..], vs[..k + 1] + [vs[k]] + vs[k + 1..], j + 1;
      } else {
        LoopKept(frames, values, constant, i, j, fs, vs);
      }
      i := i + 1;
    }
    assert frames[i + 1..] == [] && values[i + 1..] == [];
  }

  predicate Ascending(s: seq<int>) {
    forall i, j :: 0 <= i < j < |s| ==> s[i] < s[j]
  }

  /** `b` starts with `a`. */
  ghost predicate IsPrefix<T>(a: seq<T>, b: seq<T>) {
    |a| <= |b| && b[..|a|] == a
  }

  lemma PrefixTrans<T>(a: seq<T>, b: seq<T>, c: seq<T>)
    requires IsPrefix(a, b) && IsPrefix(b, c)
    ensures IsPrefix(a, c)
  {
    assert c[..|b|][..|a|] == c[..|a|];
  }

  /** Expanding one more original only appends. */
  lemma ExpandGrows<V>(frames: seq<int>, values: seq<V>, constant: seq<bool>, m: nat)
    requires |values| == |frames| && |constant| == |frames| && m < |frames|
    ensures IsPrefix(Expand(frames, values, constant, m).frames, Expand(frames, values, constant, m + 1).frames)
    ensures IsPrefix(Expand(frames, values, constant, m).values, Expand(frames, values, constant, m + 1).values)
  {
    if m > 0 {
      var small, big := Expand(frames, values, constant, m), Expand(frames, values, constant, m + 1);
      assert big.frames[..|small.frames|] == small.frames;
      assert big.values[..|small.values|] == small.values;
    }
  }

  /** Expanding more originals only appends: the expansion of a prefix is a
      prefix of the expansion. */
  lemma {:induction false} ExpandPrefix<V>(frames: seq<int>, values: seq<V>, constant: seq<bool>, m: nat, n: nat)
    requires |values| == |frames| && |constant| == |frames| && m <= n <= |frames|
    ensures IsPrefix(Expand(frames, values, constant, m).frames, Expand(frames, values, constant, n).frames)
    ensures IsPrefix(Expand(frames, values, constant, m).values, Expand(frames, values, constant, n).values)
    decreases n - m
  {
    if m < n {
      ExpandPrefix(frames, values, constant, m + 1, n);
      ExpandGrows(frames, values, constant, m);
      var small, mid, big := Expand(frames, values, constant, m), Expand(frames, values, constant, m + 1),
                             Expand(frames, values, constant, n);
      PrefixTrans(small.frames, mid.frames, big.frames);
      PrefixTrans(small.values, mid.values, big.values);
    }
  }

  /** Every original key survives with its value, in order: original `i` is
      at position `i` plus the number of keys inserted before it. */
  lemma ExpandKeepsOriginals<V>(frames: seq<int>, values: seq<V>, constant: seq<bool>, i: nat)
    requires |values| == |frames| && |constant| == |frames| && i < |frames|
    ensures var r := Expand(frames, values, constant, |frames|);
            && i + Inserted(frames, constant, i + 1) < |r.frames|
            && r.frames[i + Inserted(frames, constant, i + 1)] == frames[i]
            && r.values[i + Inserted(frames, constant, i + 1)] == values[i]
  {
    ExpandPrefix(frames, values, constant, i + 1, |frames|);
    var small, big := Expand(frames, values, constant, i + 1), Expand(frames, values, constant, |frames|);
    var p := i + Inserted(frames, constant, i + 1);
    assert big.frames[p] == big.frames[..|small.frames|][p];
    assert big.values[p] == big.values[..|small.values|][p];
  }

  /** Where a key holds over a gap of more than one frame, the next position
      carries its value at one frame before the next original key. */
  lemma ExpandInsertsHold<V>(frames: seq<int>, values: seq<V>, constant: seq<bool>, i: nat)
    requires |values| == |frames| && |constant| == |frames| && i + 1 < |frames|
    requires Holds(frames, constant, i)
    ensures var r := Expand(frames, values, constant, |frames|);
            && i + Inserted(frames, constant, i + 1) + 1 < |r.frames|
            && r.frames[i + Inserted(frames, constant, i + 1) + 1] == frames[i + 1] - 1
            && r.values[i + Inserted(frames, constant, i + 1) + 1] == values[i]
  {
    ExpandPrefix(frames, values, constant, i + 2, |frames|);
    var small, big := Expand(frames, values, constant, i + 2), Expand(frames, values, constant, |frames|);
    var p := i + Inserted(frames, constant, i + 1) + 1;
    assert big.frames[p] == big.frames[..|small.frames|][p];
    assert big.values[p] == big.values[..|small.values|][p];
  }

  /** Elsewhere nothing is inserted: the next original follows directly. */
  lemma ExpandSkipsNonHold<V>(frames: seq<int>, values: seq<V>, constant: seq<bool>, i: nat)
    requires |values| == |frames| && |constant| == |frames| && i + 1 < |frames|
    requires !Holds(frames, constant, i)
    ensures Inserted(frames, constant, i + 2) == Inserted(frames, constant, i + 1)
    ensures var r := Expand(frames, values, constant, |frames|);
            && i + Inserted(frames, constant, i + 1) + 1 < |r.frames|
            && r.frames[i + Inserted(frames, constant, i + 1) + 1] == frames[i + 1]
  {
    ExpandPrefix(frames, values, constant, i + 2, |frames|);
    var small, big := Expand(frames, values, constant, i + 2), Expand(frames, values, constant, |frames|);
    var p := i + Inserted(frames, constant, i + 1) + 1;
    assert p == |small.frames| - 1;
    assert big.frames[p] == big.frames[..|small.frames|][p];
  }

  /** Strictly increasing frames stay strictly increasing, because an
      inserted frame lies strictly between its neighbours. */
  lemma {:induction false} ExpandKeepsOrder<V>(frames: seq<int>, values: seq<V>, constant: seq<bool>, n: nat)
    requires |values| == |frames| && |constant| == |frames| && n <= |frames|
    requires Ascending(frames)
    ensures Ascending(Expand(frames, values, constant, n).frames)
  {
    if n > 1 {
      ExpandKeepsOrder(frames, values, constant, n - 1);
      var t := Expand(frames, values, constant, n - 1);
      assert t.frames[|t.frames| - 1] == frames[n - 2];
      assert forall k :: 0 <= k < |t.frames| ==> t.frames[k] <= frames[n - 2];
    }
  }

  /** The flag of the last key is never read. */
  lemma {:induction false} LastFlagIgnored<V>(frames: seq<int>, values: seq<V>, constant: seq<bool>,
                                              constant': seq<bool>, n: nat)
    requires |values| == |frames| && |constant| == |frames| && |constant'| == |frames| && 0 < n <= |frames|
    requires forall i :: 0 <= i < n - 1 ==> constant[i] == constant'[i]
    ensures Expand(frames, values, constant, n) == Expand(frames, values, constant', n)
  {
    if n > 1 {
      LastFlagIgnored(frames, values, constant, constant', n - 1);
    }
  }

  /** Two keys at frames 0 and 10 held constant export as frames 0, 9, 10,
      the key at 9 repeating the value at 0. */
  lemma HoldExample<V>(a: V, b: V, c1: bool)
    ensures Expand([0, 10], [a, b], [true, c1], 2) == Track([0, 9, 10], [a, a, b])
  {
    assert Holds([0, 10], [true, c1], 0);
  }

  /** A gap of exactly one frame, or a key that is not held, adds nothing. */
  lemma NoHoldExamples<V>(a: V, b: V, c1: bool)
    ensures Expand([0, 1], [a, b], [true, c1], 2) == Track([0, 1], [a, b])
    ensures Expand([0, 10], [a, b], [false, c1], 2) == Track([0, 10], [a, b])
  {
    assert !Holds([0, 1], [true, c1], 0);
    assert !Holds([0, 10], [false, c1], 0);
  }
}
