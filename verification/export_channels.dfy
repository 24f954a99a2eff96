/** How the exporter sorts a bone's animation channels before building curves
    (`make_bone`, blender/exporter.py:258-299). Each channel is classified by
    its data path; location and rotation channels must agree in keyframe
    count; each axis keeps the last channel seen for it, and pattern channels
    are kept per side and array index in order of first appearance. */
module ExportChannels {
  import opened Outcomes
  import opened Strings

  /** One editor keyframe point: its `co` pair and its interpolation code. */
  datatype FKey = FKey(frame: real, value: real, interpolation: nat)

  /** The editor's code for `'CONSTANT'` interpolation. */
  const ConstantInterpolation: nat := 0

  /** An editor animation channel: the property it drives, the component of
      that property, and its keyframe points. */
  datatype FCurve = FCurve(dataPath: string, arrayIndex: int, keys: seq<FKey>)

  datatype ExportError =
    | NoDotInPath          // `rindex` raises on a data path without '.'
    | UnmatchingKeyframes  // channels of one property disagree in keyframe count
    | EmptyPositionValues  // a position curve with no values to transform
    | AxisLengthMismatch   // axes of one curve disagree in length
    | EmptyPattern         // a pattern channel without keyframes
    | NoBoneProps          // `bone_props[bone_name]` raises for a bone without rest-pose data

  /** What a channel contributes to: one axis of the location, one axis of
      the rotation quaternion, one side's hand pattern, or nothing. */
  datatype Role = LocationAxis | RotationAxis | PatternSide(left: bool) | Unused

  /** The classification of `make_bone`'s if/elif chain. The property name is
      the text after the last '.'; a name merely containing "location" or
      "rotation_quaternion" counts, and pattern channels need "pat1" in the
      whole path and an exact side name. */
  function RoleOf(path: string): (r: Option<Role>)
    ensures r.None? <==> '.' !in path
  {
    match Suffix(path)
    case None => None
    case Some(name) =>
      if Contains(name, "location") then Some(LocationAxis)
      else if Contains(name, "rotation_quaternion") then Some(RotationAxis)
      else if Contains(path, "pat1") then
        if name == "pat1_left_hand" then Some(PatternSide(true))
        else if name == "pat1_right_hand" then Some(PatternSide(false))
        else Some(Unused)
      else Some(Unused)
  }

  /** A channel's role together with its array index. */
  datatype Slot = Slot(role: Role, index: int)

  function SlotOf(c: FCurve): (r: Option<Slot>)
    ensures r.None? <==> '.' !in c.dataPath
  {
    match RoleOf(c.dataPath)
    case None => None
    case Some(role) => Some(Slot(role, c.arrayIndex))
  }

  /** The position of the last channel with slot `s`. */
  function LastOf(channels: seq<FCurve>, s: Slot): (r: Option<nat>)
    ensures r.Some? ==> r.value < |channels| && SlotOf(channels[r.value]) == Some(s)
    ensures r.Some? ==> forall k :: r.value < k < |channels| ==> SlotOf(channels[k]) != Some(s)
    ensures r.None? ==> forall k :: 0 <= k < |channels| ==> SlotOf(channels[k]) != Some(s)
  {
    if |channels| == 0 then None
    else if SlotOf(channels[|channels| - 1]) == Some(s) then Some(|channels| - 1)
    else LastOf(channels[..|channels| - 1], s)
  }

  /** The position of the first channel with slot `s`. */
  function FirstOf(channels: seq<FCurve>, s: Slot): (r: Option<nat>)
    ensures r.Some? ==> r.value < |channels| && SlotOf(channels[r.value]) == Some(s)
    ensures r.Some? ==> forall k :: 0 <= k < r.value ==> SlotOf(channels[k]) != Some(s)
    ensures r.None? ==> forall k :: 0 <= k < |channels| ==> SlotOf(channels[k]) != Some(s)
  {
    if |channels| == 0 then None
    else
      var pre := channels[..|channels| - 1];
      assert forall k :: 0 <= k < |pre| ==> pre[k] == channels[k];
      match FirstOf(pre, s)
      case Some(k) => Some(k)
      case None => if SlotOf(channels[|channels| - 1]) == Some(s) then Some(|channels| - 1) else None
  }

  /** Every data path has a '.', so `rindex` never raises. */
  predicate Dotted(channels: seq<FCurve>) {
    forall i :: 0 <= i < |channels| ==> '.' in channels[i].dataPath
  }

  /** The keyframe counts of the channels with role `role`, in order. */
  function Counts(channels: seq<FCurve>, role: Role): (r: seq<nat>)
    ensures |r| <= |channels|
  {
    if |channels| == 0 then []
    else
      var c := channels[|channels| - 1];
      Counts(channels[..|channels| - 1], role) + (if RoleOf(c.dataPath) == Some(role) then [|c.keys|] else [])
  }

  /** The count check as `make_bone` performs it: the stored length is set
      by the first channel and stays 0 while channels are empty, so a
      non-empty count must be repeated by every later channel but empty
      channels before it pass. */
  predicate CountsAgree(ns: seq<nat>) {
    forall i, j :: 0 <= i < j < |ns| && ns[i] > 0 ==> ns[j] == ns[i]
  }

  /** `len` is the stored length after reading counts `ns`: every non-empty
      count equals it, and a non-zero one was read. */
  predicate Tracks(ns: seq<nat>, len: nat) {
    && (forall k :: 0 <= k < |ns| && ns[k] > 0 ==> ns[k] == len)
    && (len > 0 ==> exists k :: 0 <= k < |ns| && ns[k] == len)
  }

  /** One pattern dictionary entry: the side and array index, and the
      channel stored under it. */
  datatype PatternEntry = PatternEntry(slot: Slot, curve: FCurve)

  /** The locals of `make_bone`'s loop: the two stored lengths, the location
      and rotation dictionaries keyed by array index, and the pattern
      dictionary in insertion order. */
  datatype Gathered = Gathered(locLen: nat, rotLen: nat, loc: map<int, FCurve>, rot: map<int, FCurve>,
                               patterns: seq<PatternEntry>)

  const LocationAxes: nat := 3
  const RotationAxes: nat := 4

  /** The number of axes of a role's dictionary (x, y, z or w, x, y, z). */
  function Width(role: Role): nat {
    match role
    case LocationAxis => LocationAxes
    case RotationAxis => RotationAxes
    case _ => 0
  }

  /** Assigning an axis: array indices outside the axes are dropped. */
  function Store(m: map<int, FCurve>, c: FCurve, width: nat): (r: map<int, FCurve>)
    ensures forall a :: a in r <==> a in m || (a == c.arrayIndex && 0 <= a < width)
    ensures forall a :: a in r ==> r[a] == if a == c.arrayIndex && 0 <= a < width then c else m[a]
  {
    if 0 <= c.arrayIndex < width then m[c.arrayIndex := c] else m
  }

  /** The count check for one channel against the stored length. */
  function Check(len: nat, c: FCurve): (r: Result<nat, ExportError>)
    ensures r.Ok? <==> len == 0 || len == |c.keys|
    ensures r.Ok? ==> r.value == if len == 0 then |c.keys| else len
  {
    if len == 0 then Ok(|c.keys|)
    else if len != |c.keys| then Err(UnmatchingKeyframes)
    else Ok(len)
  }

  /** The position of the entry for slot `s`. */
  function FindSlot(ps: seq<PatternEntry>, s: Slot): (r: Option<nat>)
    ensures r.Some? ==> r.value < |ps| && ps[r.value].slot == s
    ensures r.None? ==> forall p :: 0 <= p < |ps| ==> ps[p].slot != s
  {
    if |ps| == 0 then None
    else if ps[|ps| - 1].slot == s then Some(|ps| - 1)
    else FindSlot(ps[..|ps| - 1], s)
  }

  /** Dictionary assignment: an existing key keeps its place and takes the
      new channel; a new key goes at the end. */
  function StorePattern(ps: seq<PatternEntry>, e: PatternEntry): seq<PatternEntry> {
    match FindSlot(ps, e.slot)
    case Some(p) => ps[p := e]
    case None => ps + [e]
  }

  /** One turn of `make_bone`'s loop over the channels, role by role: it
      fails on a dotless path or a count clash, and otherwise touches only
      the dictionary of the channel's role. */
  function Step(g: Gathered, c: FCurve): (r: Result<Gathered, ExportError>)
    ensures r.Ok? <==>
              && RoleOf(c.dataPath).Some?
              && (forall role :: role in {LocationAxis, RotationAxis} && RoleOf(c.dataPath) == Some(role) ==>
                    StoredLen(g, role) == 0 || StoredLen(g, role) == |c.keys|)
    ensures r.Err? ==> (r.error == NoDotInPath <==> RoleOf(c.dataPath).None?)
    ensures r.Err? ==> r.error == NoDotInPath || r.error == UnmatchingKeyframes
    ensures r.Ok? ==>
              forall role :: role in {LocationAxis, RotationAxis} ==>
                && StoredLen(r.value, role)
                   == (if RoleOf(c.dataPath) == Some(role) && StoredLen(g, role) == 0 then |c.keys|
                       else StoredLen(g, role))
                && Axes(r.value, role)
                   == (if RoleOf(c.dataPath) == Some(role) then Store(Axes(g, role), c, Width(role))
                       else Axes(g, role))
    ensures r.Ok? ==> r.value.patterns == PatternStep(g.patterns, c)
  {
    match RoleOf(c.dataPath)
    case None => Err(NoDotInPath)
    case Some(LocationAxis) =>
      (match Check(g.locLen, c)
       case Err(e) => Err(e)
       case Ok(n) => Ok(g.(locLen := n, loc := Store(g.loc, c, LocationAxes))))
    case Some(RotationAxis) =>
      (match Check(g.rotLen, c)
       case Err(e) => Err(e)
       case Ok(n) => Ok(g.(rotLen := n, rot := Store(g.rot, c, RotationAxes))))
    case Some(PatternSide(left)) =>
      Ok(g.(patterns := StorePattern(g.patterns, PatternEntry(Slot(PatternSide(left), c.arrayIndex), c))))
    case Some(Unused) => Ok(g)
  }

  /** `make_bone`'s loop over all channels. It raises only the two errors of
      the loop, and a missing '.' only when some data path lacks one. */
  function Gather(channels: seq<FCurve>): (r: Result<Gathered, ExportError>)
    ensures r.Err? ==> r.error == NoDotInPath || r.error == UnmatchingKeyframes
    ensures r.Err? && r.error == NoDotInPath ==> !Dotted(channels)
  {
    if |channels| == 0 then Ok(Gathered(0, 0, map[], map[], []))
    else
      match Gather(channels[..|channels| - 1])
      case Err(e) => Err(e)
      case Ok(g) => Step(g, channels[|channels| - 1])
  }

  /** The dictionary of an axis role. */
  function Axes(g: Gathered, role: Role): map<int, FCurve> {
    if role == LocationAxis then g.loc else g.rot
  }

  /** The stored length of an axis role. */
  function StoredLen(g: Gathered, role: Role): nat {
    if role == LocationAxis then g.locLen else g.rotLen
  }

  /** What a channel does to the pattern dictionary. */
  function PatternStep(ps: seq<PatternEntry>, c: FCurve): seq<PatternEntry> {
    match SlotOf(c)
    case Some(s) => if s.role.PatternSide? then StorePattern(ps, PatternEntry(s, c)) else ps
    case None => ps
  }

  /** Dropping counts at the end keeps agreement. */
  lemma AgreePrefix(ns: seq<nat>, tail: seq<nat>)
    ensures CountsAgree(ns + tail) ==> CountsAgree(ns)
  {
    if CountsAgree(ns + tail) {
      forall i, j | 0 <= i < j < |ns| && ns[i] > 0 ensures ns[j] == ns[i] {
        assert (ns + tail)[i] == ns[i] && (ns + tail)[j] == ns[j];
      }
    }
  }

  /** Reading one more count: the check passes exactly when agreement
      survives, and the stored length keeps tracking. */
  lemma AgreeStep(ns: seq<nat>, len: nat, n: nat)
    requires Tracks(ns, len)
    ensures CountsAgree(ns + [n]) <==> CountsAgree(ns) && (len == 0 || len == n)
    ensures CountsAgree(ns + [n]) ==> Tracks(ns + [n], if len == 0 then n else len)
  {
    var t := ns + [n];
    assert t[|ns|] == n;
    if len > 0 && len != n {
      var k :| 0 <= k < |ns| && ns[k] == len;
      assert t[k] == len;
    }
    AgreePrefix(ns, [n]);
    if CountsAgree(ns) && (len == 0 || len == n) {
      forall i, j | 0 <= i < j < |t| && t[i] > 0 ensures t[j] == t[i] {
        assert t[i] == ns[i];
      }
    }
    if CountsAgree(t) && len > 0 {
      var k :| 0 <= k < |ns| && ns[k] == len;
      assert t[k] == len;
    }
  }

  /** One more channel, seen from one axis role's counts. */
  lemma CountsStep(pre: seq<FCurve>, c: FCurve, role: Role, len: nat)
    requires Tracks(Counts(pre, role), len)
    ensures CountsAgree(Counts(pre + [c], role)) <==>
              CountsAgree(Counts(pre, role)) && (RoleOf(c.dataPath) == Some(role) ==> len == 0 || len == |c.keys|)
    ensures CountsAgree(Counts(pre + [c], role)) ==>
              Tracks(Counts(pre + [c], role), if RoleOf(c.dataPath) == Some(role) && len == 0 then |c.keys| else len)
  {
    assert (pre + [c])[..|pre|] == pre;
    var ns := Counts(pre, role);
    assert ns + [] == ns;
    if RoleOf(c.dataPath) == Some(role) {
      AgreeStep(ns, len, |c.keys|);
    }
  }

  /** A prefix of agreeing channels agrees. */
  lemma CountsPrefix(pre: seq<FCurve>, c: FCurve, role: Role)
    ensures CountsAgree(Counts(pre + [c], role)) ==> CountsAgree(Counts(pre, role))
  {
    assert (pre + [c])[..|pre|] == pre;
    AgreePrefix(Counts(pre, role), if RoleOf(c.dataPath) == Some(role) then [|c.keys|] else []);
  }

  /** `make_bone` gets through its loop exactly when every data path has a
      '.' and the location and rotation channels agree in keyframe count, in
      the loophole-tolerant sense of `CountsAgree`. */
  lemma {:induction false} GatherAccepts(channels: seq<FCurve>)
    ensures Gather(channels).Ok? <==> Accepted(channels)
    ensures Gather(channels).Ok? ==> LengthsTracked(channels, Gather(channels).value)
  {
    if |channels| > 0 {
      var pre, c := channels[..|channels| - 1], channels[|channels| - 1];
      assert channels == pre + [c];
      GatherAccepts(pre);
      AcceptStep(pre, c);
    }
  }

  /** The loop's acceptance condition. */
  predicate Accepted(channels: seq<FCurve>) {
    && Dotted(channels)
    && CountsAgree(Counts(channels, LocationAxis))
    && CountsAgree(Counts(channels, RotationAxis))
  }

  /** The stored lengths track the channels' counts. */
  predicate LengthsTracked(channels: seq<FCurve>, g: Gathered) {
    && Tracks(Counts(channels, LocationAxis), g.locLen)
    && Tracks(Counts(channels, RotationAxis), g.rotLen)
  }

  /** The inductive step of `GatherAccepts`. */
  lemma AcceptStep(pre: seq<FCurve>, c: FCurve)
    requires Gather(pre).Ok? <==> Accepted(pre)
    requires Gather(pre).Ok? ==> LengthsTracked(pre, Gather(pre).value)
    ensures Gather(pre + [c]).Ok? <==> Accepted(pre + [c])
    ensures Gather(pre + [c]).Ok? ==> LengthsTracked(pre + [c], Gather(pre + [c]).value)
  {
    var channels := pre + [c];
    assert channels[..|pre|] == pre && channels[|pre|] == c;
    assert Dotted(channels) <==> Dotted(pre) && '.' in c.dataPath;
    CountsPrefix(pre, c, LocationAxis);
    CountsPrefix(pre, c, RotationAxis);
    if Gather(pre).Ok? {
      var g := Gather(pre).value;
      assert Gather(channels) == Step(g, c);
      CountsStep(pre, c, LocationAxis, g.locLen);
      CountsStep(pre, c, RotationAxis, g.rotLen);
    }
  }

  /** Each axis dictionary holds exactly the axes some channel assigned,
      each with the last channel assigned to it. */
  lemma {:induction false} GatherAxes(channels: seq<FCurve>, role: Role)
    requires role == LocationAxis || role == RotationAxis
    requires Gather(channels).Ok?
    ensures var m := Axes(Gather(channels).value, role);
            forall a :: a in m <==> 0 <= a < Width(role) && LastOf(channels, Slot(role, a)).Some?
    ensures var m := Axes(Gather(channels).value, role);
            forall a :: a in m ==> m[a] == channels[LastOf(channels, Slot(role, a)).value]
  {
    if |channels| > 0 {
      var pre, c := channels[..|channels| - 1], channels[|channels| - 1];
      GatherAxes(pre, role);
      var g := Gather(pre).value;
      assert Gather(channels) == Step(g, c);
      if RoleOf(c.dataPath) == Some(role) {
        assert Axes(Gather(channels).value, role) == Store(Axes(g, role), c, Width(role));
      } else {
        assert Axes(Gather(channels).value, role) == Axes(g, role);
      }
    }
  }

  /** Distinct slots, in the order the entries list them. */
  predicate DistinctSlots(ps: seq<PatternEntry>) {
    forall p, q :: 0 <= p < q < |ps| ==> ps[p].slot != ps[q].slot
  }

  /** Every entry is a pattern slot some channel used, holding the last
      channel with that slot. */
  predicate EntriesAreLast(channels: seq<FCurve>, ps: seq<PatternEntry>) {
    forall p :: 0 <= p < |ps| ==>
      && ps[p].slot.role.PatternSide?
      && LastOf(channels, ps[p].slot).Some?
      && ps[p].curve == channels[LastOf(channels, ps[p].slot).value]
  }

  /** Every pattern slot some channel used has an entry. */
  ghost predicate EntriesComplete(channels: seq<FCurve>, ps: seq<PatternEntry>) {
    forall s: Slot :: s.role.PatternSide? && LastOf(channels, s).Some? ==>
      exists p :: 0 <= p < |ps| && ps[p].slot == s
  }

  /** Both slots appear, `s` first. */
  predicate AppearsBefore(channels: seq<FCurve>, s: Slot, t: Slot) {
    && FirstOf(channels, s).Some?
    && FirstOf(channels, t).Some?
    && FirstOf(channels, s).value < FirstOf(channels, t).value
  }

  /** Entries are listed in the order their slots first appeared. */
  predicate FirstAppearanceOrder(channels: seq<FCurve>, ps: seq<PatternEntry>) {
    forall p, q :: 0 <= p < q < |ps| ==> AppearsBefore(channels, ps[p].slot, ps[q].slot)
  }

  /** The pattern dictionary: one entry per side and array index that some
      pattern channel used, holding the last such channel, listed in the
      order the slots first appeared. */
  ghost predicate PatternsOf(channels: seq<FCurve>, ps: seq<PatternEntry>) {
    && DistinctSlots(ps)
    && EntriesAreLast(channels, ps)
    && EntriesComplete(channels, ps)
    && FirstAppearanceOrder(channels, ps)
  }

  /** A channel without slot `s` leaves the first and last positions of `s`
      where they were. */
  lemma OtherSlotKeepsPositions(pre: seq<FCurve>, c: FCurve, s: Slot)
    requires SlotOf(c) != Some(s)
    ensures LastOf(pre + [c], s) == LastOf(pre, s)
    ensures FirstOf(pre + [c], s) == FirstOf(pre, s)
  {
    assert (pre + [c])[..|pre|] == pre;
  }

  /** A channel that is not a pattern channel leaves the dictionary as it
      was, and it stays the right one. */
  lemma PatternsKeep(pre: seq<FCurve>, c: FCurve, ps: seq<PatternEntry>)
    requires PatternsOf(pre, ps)
    requires SlotOf(c).None? || !SlotOf(c).value.role.PatternSide?
    ensures PatternsOf(pre + [c], ps)
  {
    forall s: Slot | s.role.PatternSide?
      ensures LastOf(pre + [c], s) == LastOf(pre, s) && FirstOf(pre + [c], s) == FirstOf(pre, s)
    {
      OtherSlotKeepsPositions(pre, c, s);
    }
  }

  /** Positions of every slot but `s0` agree between two channel lists. */
  ghost predicate SameElsewhere(pre: seq<FCurve>, channels: seq<FCurve>, s0: Slot) {
    forall s: Slot :: s != s0 ==> LastOf(channels, s) == LastOf(pre, s) && FirstOf(channels, s) == FirstOf(pre, s)
  }

  /** A channel with slot `s0` moves no other slot's positions, and becomes
      the last channel of `s0`. */
  lemma Elsewhere(pre: seq<FCurve>, c: FCurve, s0: Slot)
    requires SlotOf(c) == Some(s0)
    ensures SameElsewhere(pre, pre + [c], s0)
    ensures LastOf(pre + [c], s0) == Some(|pre|)
    ensures FirstOf(pre, s0).Some? ==> FirstOf(pre + [c], s0) == FirstOf(pre, s0)
  {
    assert (pre + [c])[..|pre|] == pre;
    forall s: Slot | s != s0
      ensures LastOf(pre + [c], s) == LastOf(pre, s) && FirstOf(pre + [c], s) == FirstOf(pre, s)
    {
      OtherSlotKeepsPositions(pre, c, s);
    }
  }

  /** A pattern channel whose slot already has an entry takes its place. */
  lemma PatternsReplace(pre: seq<FCurve>, ps: seq<PatternEntry>, p0: nat, e: PatternEntry)
    requires PatternsOf(pre, ps)
    requires SlotOf(e.curve) == Some(e.slot) && p0 < |ps| && ps[p0].slot == e.slot
    ensures PatternsOf(pre + [e.curve], ps[p0 := e])
  {
    var channels := pre + [e.curve];
    Elsewhere(pre, e.curve, e.slot);
    ReplaceLast(pre, channels, ps, p0, e);
    ReplaceComplete(pre, channels, ps, p0, e);
    ReplaceOrder(pre, channels, ps, p0, e);
  }

  lemma ReplaceOrder(pre: seq<FCurve>, channels: seq<FCurve>, ps: seq<PatternEntry>, p0: nat, e: PatternEntry)
    requires FirstAppearanceOrder(pre, ps) && DistinctSlots(ps)
    requires channels == pre + [e.curve]
    requires p0 < |ps| && ps[p0].slot == e.slot && SlotOf(e.curve) == Some(e.slot)
    requires SameElsewhere(pre, channels, e.slot)
    ensures FirstAppearanceOrder(channels, ps[p0 := e])
    ensures DistinctSlots(ps[p0 := e])
  {
    forall p, q | 0 <= p < q < |ps|
      ensures AppearsBefore(channels, ps[p].slot, ps[q].slot)
    {
      assert AppearsBefore(pre, ps[p].slot, ps[q].slot);
      SameFirst(pre, channels, ps, p0, e, p);
      SameFirst(pre, channels, ps, p0, e, q);
    }
    SameSlots(channels, ps, ps[p0 := e]);
  }

  /** Order and distinctness depend only on the entries' slots. */
  lemma SameSlots(channels: seq<FCurve>, ps: seq<PatternEntry>, r: seq<PatternEntry>)
    requires |r| == |ps| && forall p :: 0 <= p < |ps| ==> r[p].slot == ps[p].slot
    ensures FirstAppearanceOrder(channels, ps) ==> FirstAppearanceOrder(channels, r)
    ensures DistinctSlots(ps) ==> DistinctSlots(r)
  {
    if FirstAppearanceOrder(channels, ps) {
      forall p, q | 0 <= p < q < |r|
        ensures AppearsBefore(channels, r[p].slot, r[q].slot)
      {
        assert r[p].slot == ps[p].slot && r[q].slot == ps[q].slot;
      }
    }
  }

  /** Replacing the entry of an existing slot leaves every entry's first
      position where it was. */
  lemma SameFirst(pre: seq<FCurve>, channels: seq<FCurve>, ps: seq<PatternEntry>, p0: nat, e: PatternEntry, p: nat)
    requires DistinctSlots(ps) && channels == pre + [e.curve]
    requires p0 < |ps| && ps[p0].slot == e.slot && SlotOf(e.curve) == Some(e.slot)
    requires SameElsewhere(pre, channels, e.slot)
    requires p < |ps| && FirstOf(pre, ps[p].slot).Some?
    ensures FirstOf(channels, ps[p].slot) == FirstOf(pre, ps[p].slot)
  {
    if p == p0 {
      Elsewhere(pre, e.curve, e.slot);
    } else {
      assert ps[p].slot != e.slot by {
        if p < p0 { assert ps[p].slot != ps[p0].slot; } else { assert ps[p0].slot != ps[p].slot; }
      }
    }
  }

  lemma ReplaceLast(pre: seq<FCurve>, channels: seq<FCurve>, ps: seq<PatternEntry>, p0: nat, e: PatternEntry)
    requires EntriesAreLast(pre, ps) && DistinctSlots(ps) && e.slot.role.PatternSide?
    requires p0 < |ps| && ps[p0].slot == e.slot
    requires channels == pre + [e.curve]
    requires SameElsewhere(pre, channels, e.slot) && LastOf(channels, e.slot) == Some(|pre|)
    ensures EntriesAreLast(channels, ps[p0 := e])
  {
    var r := ps[p0 := e];
    forall p | 0 <= p < |r|
      ensures r[p].slot.role.PatternSide? && LastOf(channels, r[p].slot).Some?
      ensures r[p].curve == channels[LastOf(channels, r[p].slot).value]
    {
      if p != p0 {
        var k := LastOf(pre, ps[p].slot).value;
        assert channels[k] == pre[k];
      }
    }
  }

  lemma ReplaceComplete(pre: seq<FCurve>, channels: seq<FCurve>, ps: seq<PatternEntry>, p0: nat, e: PatternEntry)
    requires EntriesComplete(pre, ps)
    requires p0 < |ps| && ps[p0].slot == e.slot
    requires SameElsewhere(pre, channels, e.slot)
    ensures EntriesComplete(channels, ps[p0 := e])
  {
    var r := ps[p0 := e];
    forall s: Slot | s.role.PatternSide? && LastOf(channels, s).Some?
      ensures exists p :: 0 <= p < |r| && r[p].slot == s
    {
      if s != e.slot {
        var p :| 0 <= p < |ps| && ps[p].slot == s;
        assert r[p].slot == s;
      } else {
        assert r[p0].slot == s;
      }
    }
  }

  /** A pattern channel with a new slot is appended. */
  lemma PatternsAppend(pre: seq<FCurve>, ps: seq<PatternEntry>, e: PatternEntry)
    requires PatternsOf(pre, ps)
    requires SlotOf(e.curve) == Some(e.slot) && e.slot.role.PatternSide?
    requires forall p :: 0 <= p < |ps| ==> ps[p].slot != e.slot
    ensures PatternsOf(pre + [e.curve], ps + [e])
  {
    var channels, r := pre + [e.curve], ps + [e];
    Elsewhere(pre, e.curve, e.slot);
    assert LastOf(pre, e.slot).None?;
    assert FirstOf(pre, e.slot).None?;
    assert FirstOf(channels, e.slot) == Some(|pre|);
    AppendOrder(pre, channels, ps, e);
    AppendComplete(pre, channels, ps, e);
  }

  /** A slot with a last channel has a first one, no later. */
  lemma FirstWhenLast(channels: seq<FCurve>, s: Slot)
    requires LastOf(channels, s).Some?
    ensures FirstOf(channels, s).Some? && FirstOf(channels, s).value <= LastOf(channels, s).value
  {
  }

  lemma AppendOrder(pre: seq<FCurve>, channels: seq<FCurve>, ps: seq<PatternEntry>, e: PatternEntry)
    requires EntriesAreLast(pre, ps) && FirstAppearanceOrder(pre, ps)
    requires forall p :: 0 <= p < |ps| ==> ps[p].slot != e.slot
    requires SameElsewhere(pre, channels, e.slot) && FirstOf(channels, e.slot) == Some(|pre|)
    ensures FirstAppearanceOrder(channels, ps + [e])
  {
    var r := ps + [e];
    forall p | 0 <= p < |ps|
      ensures FirstOf(channels, ps[p].slot).Some? && FirstOf(channels, ps[p].slot).value < |pre|
    {
      FirstWhenLast(pre, ps[p].slot);
      assert FirstOf(channels, ps[p].slot) == FirstOf(pre, ps[p].slot);
    }
    forall p, q | 0 <= p < q < |r|
      ensures AppearsBefore(channels, r[p].slot, r[q].slot)
    {
      assert r[p] == ps[p];
      if q < |ps| {
        assert r[q] == ps[q];
        assert FirstOf(channels, ps[p].slot) == FirstOf(pre, ps[p].slot);
        assert FirstOf(channels, ps[q].slot) == FirstOf(pre, ps[q].slot);
      } else {
        assert r[q] == e;
      }
    }
  }

  lemma AppendComplete(pre: seq<FCurve>, channels: seq<FCurve>, ps: seq<PatternEntry>, e: PatternEntry)
    requires EntriesComplete(pre, ps)
    requires SameElsewhere(pre, channels, e.slot)
    ensures EntriesComplete(channels, ps + [e])
  {
    var r := ps + [e];
    forall s: Slot | s.role.PatternSide? && LastOf(channels, s).Some?
      ensures exists p :: 0 <= p < |r| && r[p].slot == s
    {
      if s == e.slot {
        assert r[|ps|].slot == s;
      } else {
        var p :| 0 <= p < |ps| && ps[p].slot == s;
        assert r[p].slot == s;
      }
    }
  }

  /** One channel keeps the pattern dictionary the one `PatternsOf`
      describes. */
  lemma PatternsStep(pre: seq<FCurve>, c: FCurve, ps: seq<PatternEntry>)
    requires PatternsOf(pre, ps)
    ensures PatternsOf(pre + [c], PatternStep(ps, c))
  {
    match SlotOf(c)
    case None => PatternsKeep(pre, c, ps);
    case Some(s) =>
      if !s.role.PatternSide? {
        PatternsKeep(pre, c, ps);
      } else {
        var e := PatternEntry(s, c);
        match FindSlot(ps, s)
        case Some(p0) => PatternsReplace(pre, ps, p0, e);
        case None => PatternsAppend(pre, ps, e);
      }
  }

  /** The pattern dictionary `make_bone` builds is the one `PatternsOf`
      describes. */
  lemma {:induction false} GatherPatterns(channels: seq<FCurve>)
    requires Gather(channels).Ok?
    ensures PatternsOf(channels, Gather(channels).value.patterns)
  {
    if |channels| > 0 {
      var pre, c := channels[..|channels| - 1], channels[|channels| - 1];
      assert channels == pre + [c];
      GatherPatterns(pre);
      PatternsStep(pre, c, Gather(pre).value.patterns);
    }
  }
}
