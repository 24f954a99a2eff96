/** The two string operations the exporter's channel classification uses:
    substring containment (Python's `in` on strings) and the text after the
    last '.' (`s[s.rindex(".") + 1:]`). */
module Strings {
  import opened Outcomes

  /** `p` occurs in `s` starting at position `i`. */
  predicate OccursAt(s: string, p: string, i: int) {
    0 <= i <= |s| - |p| && s[i..i + |p|] == p
  }

  /** `p in s`. */
  predicate Contains(s: string, p: string) {
    exists i | 0 <= i <= |s| - |p| :: OccursAt(s, p, i)
  }

  /** A pattern holding a character the text lacks does not occur in it. */
  lemma MissingChar(s: string, p: string, c: char)
    requires c in p && c !in s
    ensures !Contains(s, p)
  {
  }

  /** `s.rindex(".")`: the position of the last '.', or `None` where Python
      raises `ValueError` because there is none. */
  function LastDot(s: string): (r: Option<nat>)
    ensures r.Some? ==> r.value < |s| && s[r.value] == '.'
    ensures r.Some? ==> forall k :: r.value < k < |s| ==> s[k] != '.'
    ensures r.None? <==> '.' !in s
  {
    if |s| == 0 then None
    else if s[|s| - 1] == '.' then Some(|s| - 1)
    else
      var r := LastDot(s[..|s| - 1]);
      assert s == s[..|s| - 1] + [s[|s| - 1]];
      r
  }

  /** The text after the last '.', the property name of an animation data
      path such as `pose.bones["b"].location`. */
  function Suffix(s: string): (r: Option<string>)
    ensures r.None? <==> '.' !in s
    ensures r.Some? ==> '.' !in r.value
  {
    match LastDot(s)
    case None => None
    case Some(d) => Some(s[d + 1..])
  }

  /** Appending a dotless name after a '.' makes that name the suffix,
      whatever dots the front part holds. */
  lemma {:induction false} SuffixAfterDot(front: string, name: string)
    requires '.' !in name
    ensures Suffix(front + "." + name) == Some(name)
  {
    var s := front + "." + name;
    assert s[|front|] == '.';
    var d := LastDot(s);
    assert d.Some?;
    forall k | |front| < k < |s| ensures s[k] != '.' {
      assert s[k] == name[k - |front| - 1];
    }
    assert d.value == |front|;
    assert s[|front| + 1..] == name;
  }

  /** A text ending in `p` contains `p`. */
  lemma EndsWith(front: string, p: string)
    ensures Contains(front + p, p)
  {
    assert OccursAt(front + p, p, |front|);
  }

  /** A name that starts with `p` puts `p` in any path it ends after a '.'. */
  lemma OccursAfterDot(front: string, name: string, p: string)
    requires |p| <= |name| && name[..|p|] == p
    ensures Contains(front + "." + name, p)
  {
    var s := front + "." + name;
    assert s[|front| + 1..|front| + 1 + |p|] == name[..|p|];
    assert OccursAt(s, p, |front| + 1);
  }
}
