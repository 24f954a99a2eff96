# A Dafny model of the GMT animation bridge for Blender

This project models the core of an add-on that moves GMT animations between
the animation file format used by the Yakuza games' engines and Blender. It
covers three parts:

- **Axis conversion** (`blender/coordinate_converter.py`). Positions and
  rotations are converted between the file's axis convention and the
  editor's. Pattern codes are converted between the editor's single list and
  the file's (start, end) pairs. A LOCATION or ROTATION curve is converted
  keyframe by keyframe.
- **Import** (`blender/importer.py`). `add_curve` merges one curve into
  another: it seeds an empty LOCATION or ROTATION curve with the identity,
  walks every frame either curve keys, samples each curve there between its
  neighbouring keys (`lerp` for LOCATION, `slerp` for ROTATION), and combines
  the two samples (vector sum for LOCATION, quaternion product for ROTATION).
  The model also covers `merge_vector`, `get_property_from_curve_type` and
  the early exits of `import_curve`.
- **Export** (`blender/exporter.py`). `make_bone` classifies a bone's
  channels by the property name after the last '.' of their data path. It
  checks that the channels of one property agree in keyframe count, keeps
  the last channel of each axis, and keeps the pattern channels per side and
  array index. `make_curve` then builds a position curve, a rotation curve
  in the format the file version selects, and one pattern curve per side
  and array index of the `pat1_left_hand` and `pat1_right_hand` channels,
  in order of first appearance, each from that slot's last channel. Frames are truncated to integers. Old-engine pattern codes above
  17 become 0. A key that every axis holds CONSTANT, other than the last,
  is duplicated one frame before the next key when the next key is more
  than one frame away.

Modules, one file each:

| module | file | role |
|---|---|---|
| `Outcomes` | `outcomes.dfy` | `Option` and `Result` |
| `Values` | `values.dfy` | vectors, quaternions, their addition and product |
| `Curves` | `curves.dfy` | keyframes, curve types and channels, ordered key lists |
| `CoordinateConverter` | `coordinate_converter.dfy` | the axis and pattern conversions |
| `KeyframeSearch` | `keyframe_search.dfy` | the neighbour search and sampling inside `add_curve` |
| `CurveMerge` | `curve_merge.dfy` | the frame-by-frame merge of two key lists |
| `Importer` | `importer.dfy` | `add_curve`, `merge_vector`, the property mapping |
| `ConstantDuplication` | `constant_duplication.dfy` | the held-key duplication loop of `make_curve` |
| `Strings` | `strings.dfy` | substring containment and the text after the last '.' |
| `ExportChannels` | `export_channels.dfy` | the channel classification loop of `make_bone` |
| `Exporter` | `exporter.dfy` | `make_curve`, `correct_pattern` and `make_bone` |

Some behaviour comes from the host or from arithmetic the model does not
carry out. It enters as a parameter:

- `lerp` and `slerp` in the merge;
- a `BoneSpace` for the bone being exported: its `bone_props` entry, reduced
  to the bone-space matrix products of `transform_location` and
  `transform_rotation` (`loc` and `rot`). A bone without an entry passes
  `None`.

Raised exceptions become `Err` values of `Result`. Where the source runs
into an `IndexError`, a `KeyError` or a `ValueError`, the model gives that
error a name (`EmptyOther`, `NoBoneProps`, `NoDotInPath`,
`EmptyPositionValues`, `EmptyPattern`, `NoCodes`).

## Model

| member | source | states |
|---|---|---|
| CoordinateConverter.PosToBlender | blender/coordinate_converter.py:12-13 | the axis swap keeps the squared length of a position |
| CoordinateConverter.PosFromBlender | blender/coordinate_converter.py:16-17 | converting back to the file's axes is undone by `pos_to_blender`, and keeps the squared length |
| CoordinateConverter.PosRoundTrip | blender/coordinate_converter.py:12-17 | `pos_from_blender(pos_to_blender(p)) == p` for every position |
| CoordinateConverter.RotToBlender | blender/coordinate_converter.py:20-21 | the component reordering keeps the squared norm of a rotation |
| CoordinateConverter.RotFromBlender | blender/coordinate_converter.py:24-25 | converting back to the file's order is undone by `rot_to_blender`, and keeps the squared norm |
| CoordinateConverter.RotRoundTrip | blender/coordinate_converter.py:20-25 | `rot_from_blender(rot_to_blender(g)) == g` for every file rotation |
| CoordinateConverter.Pattern1FromBlender | blender/coordinate_converter.py:32-33 | succeeds exactly on a non-empty list; the start column is the list itself; each end is the next code, and the last code is its own end |
| CoordinateConverter.Pairs | blender/exporter.py:370-373 | `map` over the start and end columns gives one pair per index, holding the start and end at that index |
| CoordinateConverter.Pattern1ToBlender | blender/coordinate_converter.py:28-29 | keeps one element per pair, namely its start code |
| CoordinateConverter.PatternRoundTrip | blender/coordinate_converter.py:28-33 | pairing a non-empty code list and keeping the starts gives back the list |
| CoordinateConverter.PatternPairingExample | blender/coordinate_converter.py:28-33 | codes [2, 5, 5] pair as (2,5), (5,5), (5,5), and the starts give back [2, 5, 5] |
| CoordinateConverter.Pattern2ToBlender | blender/coordinate_converter.py:36-38 | the second pattern kind is passed through unchanged |
| CoordinateConverter.Pattern2FromBlender | blender/coordinate_converter.py:41-42 | the second pattern kind is passed through unchanged on export too |
| CoordinateConverter.ConvertGmtCurveToBlender | blender/coordinate_converter.py:63-71 | type, channel, keyframe count and every frame are kept; LOCATION and ROTATION values are converted key by key into editor values; any other curve is returned as it was |
| CoordinateConverter.ConvertedCurveIsRecoverable | blender/coordinate_converter.py:63-71 | applying the inverse conversion to each converted value gives back the file's value |
| Curves.EndFrame | blender/importer.py:428 | the end frame is a keyed frame, and on an ordered key list every keyed frame is at most it: the end frame is the largest keyed frame |
| KeyframeSearch.IndexOf | blender/importer.py:419-431 | the dictionary lookup `curve_dict.get(i)` finds a key exactly when the frame is keyed, and the one it finds is the last key at that frame |
| KeyframeSearch.LastBelow | blender/importer.py:437-438 | finds the last key before the frame; nothing is found only when no key is before it |
| KeyframeSearch.FirstAbove | blender/importer.py:440-441 | finds the first key after the frame; nothing is found only when no key is after it |
| KeyframeSearch.Factor | blender/importer.py:443-444 | the factor `(i - less) / (more - less)` is 0 at `less`, 1 at `more`, and strictly between 0 and 1 for a frame strictly between them |
| KeyframeSearch.Sample | blender/importer.py:430-449 | at a keyed frame the sample is a value keyed at that frame; anywhere else it is either some key's value or the interpolation of two keys at different frames, by the factor between them |
| KeyframeSearch.BracketIsAdjacent | blender/importer.py:436-441 | for an unkeyed frame inside an ordered list, the two neighbours found are consecutive keys around the frame |
| KeyframeSearch.SampleAtKey | blender/importer.py:430-436 | at a keyed frame, the sample is that key's value |
| KeyframeSearch.SampleBeyondEnds | blender/importer.py:436-445 | before the first key the sample is the first value, after the last key it is the last value |
| KeyframeSearch.SampleBetween | blender/importer.py:436-445 | strictly between two consecutive keys, the sample interpolates those two keys with a factor strictly between 0 and 1 |
| KeyframeSearch.SampleSingle | blender/importer.py:436-445 | a curve with one key samples to that key's value at every frame |
| CurveMerge.Scan | blender/importer.py:428-451 | the keys produced over a frame range are ordered, lie in the range, sit exactly at the frames either curve keys there, and carry the combined sample |
| CurveMerge.Merge | blender/importer.py:419-453 | the merged keys are ordered, the merged frames are the union of both curves' frames, and each key carries the combined sample at its frame |
| Importer.Seeded | blender/importer.py:401-414 | an empty LOCATION curve gets one zero vector at frame 0, an empty ROTATION curve one identity quaternion at frame 0; any other curve is unchanged |
| Importer.MergeLocations | blender/importer.py:401-451 | LOCATION keys merge into ordered vector keys over the union of frames, each the vector sum of the two samples |
| Importer.MergeRotations | blender/importer.py:408-451 | ROTATION keys merge into ordered quaternion keys over the union of frames, each the product of the two samples, primary on the left |
| Importer.AddCurve | blender/importer.py:392-453 | different types fail; types other than LOCATION and ROTATION fail; two LOCATION or ROTATION curves merge exactly when the secondary has keyframes, and the result keeps type and channel, with frames the union of the seeded primary's and the secondary's |
| Importer.MergeAtSharedKey | blender/importer.py:428-451 | at a frame both curves key, the merged value combines the two keyed values |
| Importer.MergeAtSecondaryKey | blender/importer.py:428-451 | at a frame the secondary keys, the merged value combines the primary's sample with the secondary's key |
| Importer.MergeFramesExample | blender/importer.py:428-434 | keys at {0, 5, 10} and {0, 3, 10} merge into keys at exactly 0, 3, 5, 10 |
| Importer.EmptyPrimaryTakesOther | blender/importer.py:403-451 | adding a non-empty curve into an empty one of the same type succeeds, and each merged value is the identity combined with the other curve's key |
| Importer.MergeVector | blender/importer.py:374-389 | without a vector version or one of the two bones, both are returned untouched; otherwise the vector bone is reset, and its curves are added into the center bone exactly when the version and authoring flag call for it |
| Importer.PropertyFromCurveType | blender/importer.py:507-522 | a curve type maps to no property exactly when it is not LOCATION, ROTATION or PATTERN_HAND |
| Importer.ImportedDataPath | blender/importer.py:456-497 | channels are written exactly for a non-empty LOCATION or ROTATION curve, under the property its type maps to |
| ConstantDuplication.Expand | blender/exporter.py:386-393 | the exported track of the first n originals has n keys plus those inserted among them, and ends with original n-1 |
| ConstantDuplication.DuplicateConstantKeys | blender/exporter.py:386-393 | the in-place insertion loop with its running offset `j` computes exactly the track `Expand` describes |
| ConstantDuplication.ExpandPrefix | blender/exporter.py:386-393 | handling later originals only appends to the track built so far |
| ConstantDuplication.ExpandKeepsOriginals | blender/exporter.py:386-393 | every original key survives with its frame and value, after the keys inserted before it |
| ConstantDuplication.ExpandInsertsHold | blender/exporter.py:389-393 | a held key over a gap of more than one frame is followed by a copy of its value one frame before the next key |
| ConstantDuplication.ExpandSkipsNonHold | blender/exporter.py:389 | where a key is not held or the gap is one frame, nothing is inserted and the next original follows directly |
| ConstantDuplication.ExpandKeepsOrder | blender/exporter.py:389-392 | strictly increasing frames stay strictly increasing after insertion |
| ConstantDuplication.LastFlagIgnored | blender/exporter.py:387-389 | the CONSTANT flag of the last key never affects the result |
| ConstantDuplication.HoldExample | blender/exporter.py:386-393 | two held keys at 0 and 10 export as frames 0, 9, 10 with the first value repeated |
| ConstantDuplication.NoHoldExamples | blender/exporter.py:389 | a gap of one frame, or a key that is not held, adds nothing |
| Strings.LastDot | blender/exporter.py:267 | `rindex(".")` finds the last '.', and fails exactly when there is none |
| Strings.Suffix | blender/exporter.py:267 | the property name exists exactly when the path has a '.', and holds no '.' |
| Strings.SuffixAfterDot | blender/exporter.py:267 | for any front part, the property name of `front + "." + name` is `name` when `name` has no '.' |
| ExportChannels.RoleOf | blender/exporter.py:266-299 | classification fails exactly on a data path without '.' |
| ExportChannels.Store | blender/exporter.py:274-294 | an axis dictionary gains exactly the channel's array index, when that index names an axis, and the channel replaces what was there |
| ExportChannels.Check | blender/exporter.py:268-272 | the keyframe count check passes exactly when nothing is stored yet or the counts agree, and then stores the count |
| ExportChannels.Step | blender/exporter.py:266-299 | one turn of the loop fails exactly on a dotless path or a count clash, naming which; otherwise it stores the count if none was stored, updates only the dictionary of the channel's role, and steps the pattern dictionary |
| ExportChannels.Gather | blender/exporter.py:266-299 | the whole loop fails only on a dotless path or a count clash, and on a dotless path only when some path has no '.' |
| ExportChannels.AgreeStep | blender/exporter.py:268-272 | comparing against the stored length is the same as requiring every non-empty count to equal all later counts |
| ExportChannels.GatherAccepts | blender/exporter.py:266-299 | the loop gets through exactly when every path has a '.' and all location counts and all rotation counts agree, and the stored lengths then track those counts |
| ExportChannels.GatherAxes | blender/exporter.py:274-294 | each axis dictionary holds exactly the axes some channel named, each with the last channel that named it |
| ExportChannels.PatternsStep | blender/exporter.py:295-299 | one channel keeps the pattern dictionary described by `PatternsOf`: distinct slots, each holding its last channel, every used slot present, in order of first appearance |
| ExportChannels.GatherPatterns | blender/exporter.py:295-299 | the pattern dictionary after the loop is the one `PatternsOf` describes |
| Exporter.Trunc | blender/exporter.py:342 | `int(x)` truncates toward zero: the result is within one of `x`, on the same side of zero |
| Exporter.ConstantFlags | blender/exporter.py:378-384 | the AND over the axes keeps one flag per keyframe point of the first axis |
| Exporter.ConstantFlagsAllAxes | blender/exporter.py:378-384 | a key is flagged exactly when every axis interpolates it as CONSTANT |
| Exporter.CorrectPattern | blender/exporter.py:406-407 | no code exceeds 17 afterwards; codes up to 17 are kept and larger ones become 0 |
| Exporter.CorrectPatternIdempotent | blender/exporter.py:406-407 | correcting twice is the same as correcting once |
| Exporter.RotationFormat | blender/exporter.py:309-311 | the scaled quaternion format is chosen exactly for versions above 0x10001, and the half-float format otherwise |
| Exporter.PositionValues | blender/exporter.py:410-430 | one value per zipped key, each a position whose `pos_to_blender` is the bone-space map of the editor's (x, y, z) |
| Exporter.RotationValues | blender/exporter.py:433-447 | one value per zipped key, each a file rotation whose `rot_to_blender` is the bone-space map of the editor's (w, x, y, z) |
| Exporter.MakePositionCurve | blender/exporter.py:346-353 | succeeds exactly when the bone has `bone_props` data (looked up at line 411) and the three axes have the same non-zero length; a missing entry is the `KeyError`, then an empty axis is the empty-values error of line 427, any other mismatch the length error of `foreach_get` at lines 381-382; on success the curve is the duplication pass over the x axis's frames and the transformed positions |
| Exporter.MakeRotationCurve | blender/exporter.py:354-362 | succeeds exactly when the bone has `bone_props` data (looked up at line 434) and either the w axis has no keys or the four axes have equal length, in the format given; a w axis without keys gives a curve without keys; with equal lengths the curve is the duplication pass over the w axis's frames and the transformed rotations |
| Exporter.EmptyFirstQuaternionAxis | blender/exporter.py:280-285 | counts [0, n, n, n] pass `make_bone`'s check, and a w channel without keys exports an empty rotation curve whatever x, y and z hold |
| Exporter.RotationCurveIsInterpolated | blender/exporter.py:354-393 | a successful rotation curve whose w axis has keys comes from four axes of one length and is the duplication pass over their transformed values |
| Exporter.InterpolatedRotationKeepsKeys | blender/exporter.py:376-393 | in the duplication pass over four equal-length axes, original key i sits at its truncated frame with the file-order form of its bone-space rotation |
| Exporter.PositionCurveKeepsKeys | blender/exporter.py:342-353 | original key i of an exported position curve sits after the keys inserted before it, at `int(frame)`, with a value that `pos_to_blender` maps back to the bone-space position of the three axes' values |
| Exporter.PositionCurveHoldsKeys | blender/exporter.py:378-393 | a key all three axes hold CONSTANT, more than one frame before the next, is followed in the exported position curve by a copy of its value at the next frame minus one |
| Exporter.RotationCurveKeepsKeys | blender/exporter.py:342-362 | original key i of an exported rotation curve sits after the keys inserted before it, at `int(frame)`, with a value that `rot_to_blender` maps back to the bone-space rotation of the four axes' values |
| Exporter.RotationCurveHoldsKeys | blender/exporter.py:378-393 | a key all four axes hold CONSTANT, more than one frame before the next, is followed in the exported rotation curve by a copy of its value at the next frame minus one |
| Exporter.HoldCopiesKey | blender/exporter.py:386-393 | for any axes, the key inserted after a held key lands one frame before the next key and repeats the held key's exported value |
| Exporter.Interpolated | blender/exporter.py:376-393 | a position or rotation curve keeps its format, has one frame per value, counts the original keys plus those inserted, and ends with the last original key's truncated frame and value |
| Exporter.MakePatternCurve | blender/exporter.py:363-374 | succeeds exactly on a non-empty channel; frames are the truncated frames, one value per key, no duplication |
| Exporter.PatternCurveFromPairs | blender/exporter.py:369-373 | a non-empty pattern channel exports exactly the pairs `Pairs` zips from `pattern1_from_blender`'s columns, each start and end truncated by `int()` |
| Exporter.PatternCurvePairs | blender/exporter.py:365-373 | key i exports as the truncated pair of its own code and the next code, the last key's own code ending it |
| Exporter.PatternCodesCorrected | blender/exporter.py:366-368 | the Dragon Engine pairs the channel's values as they are; older engines pair them after codes above 17 become 0 |
| Exporter.PatternCurveBounded | blender/exporter.py:366-373 | for an older engine no exported start or end code exceeds 17 |
| Exporter.TruncMonotone | blender/exporter.py:342 | truncation keeps order |
| Exporter.InterpolatedKeepsOriginals | blender/exporter.py:376-393 | a position or rotation curve keeps every original key's truncated frame and value, after the keys inserted before it |
| Exporter.HoldsIffAllConstant | blender/exporter.py:378-389 | a key is duplicated exactly when every axis is CONSTANT there and the next frame is more than one frame away |
| Exporter.InterpolatedInsertsHolds | blender/exporter.py:378-393 | such a key is followed by a copy of its value at the next frame minus one |
| Exporter.InterpolatedKeepsOrder | blender/exporter.py:386-393 | strictly increasing truncated frames stay strictly increasing in the exported curve |
| Exporter.PositionCurves | blender/exporter.py:301-306 | a position curve is added exactly when all three location axes are present, and it can only fail then |
| Exporter.RotationCurves | blender/exporter.py:308-316 | a rotation curve is added exactly when all four quaternion axes are present, and it can only fail then |
| Exporter.PatternCurves | blender/exporter.py:318-326 | one curve per pattern entry, each built from its channel in its side's format, failing exactly when some entry's channel is empty |
| Exporter.MakeBone | blender/exporter.py:258-328 | the bone keeps its name, and it is only produced for accepted channels |
| Exporter.MakeBoneParts | blender/exporter.py:301-328 | a bone's curves are the position curve, then the rotation curve, then the pattern curves |
| Exporter.MakeBoneNeedsProps | blender/exporter.py:301-316 | a bone with a full set of location or rotation channels fails with the `KeyError` of lines 411 and 434 when it has no `bone_props` entry; a bone with neither set never looks the entry up |
| Exporter.CoverIffHasAxes | blender/exporter.py:274-301 | all axes of a role are in its dictionary exactly when every axis has a channel, each the last one |
| Exporter.MakeBoneCount | blender/exporter.py:301-326 | a bone has one position curve exactly when all three location axes have a channel, one rotation curve exactly when all four quaternion axes do, plus one curve per pattern entry |
| Exporter.MakeBonePosition | blender/exporter.py:301-306 | the position curve comes first, in the position format, built from the last channel of each location axis |
| Exporter.MakeBoneRotation | blender/exporter.py:308-316 | the rotation curve follows it, in the format the version selects, built from the last channel of each quaternion axis in w, x, y, z order |
| Exporter.MakeBonePatterns | blender/exporter.py:318-326 | the pattern curves come last, one per side and array index in order of first appearance, each from that slot's last channel in its side's format |
| Exporter.ImportedNamesClassify | blender/exporter.py:266-299 | every property name the importer writes is classified on export as the role it came from |
| Exporter.PatternNameClassifies | blender/exporter.py:295-299 | of the four pattern names only the two side names select a side |
| Exporter.NameWithLocation | blender/exporter.py:267 | any property name containing "location" is read as a location axis |
| Exporter.DeltaLocationIsLocation | blender/exporter.py:267 | `delta_location` is read as a location axis too |
| Exporter.DotlessPathRejected | blender/exporter.py:267 | a data path without '.' is rejected |

## Left out

- Camera animation is not modelled: `convert_cmt_anm_to_blender`, the field-of-view and focus-point conversions, and their camera math are trigonometry on floats outside the bone-animation core.
- The bone-space transforms `transform_location` and `transform_rotation` (matrix products with rest-pose heads and rotations) are the functions `loc` and `rot` of the `BoneSpace` parameter. Their lookup `self.bone_props[bone_name]` (blender/exporter.py:411, 434) is modelled: a bone without an entry passes `None` and fails with `NoBoneProps`. The importer's own transforms are left out for the same reason.
- `lerp` and `slerp` are parameters of the merge. The model proves which pair of values and which factor reach them, not what they compute.
- Floating-point arithmetic is modelled as exact reals. Frames on the export side are reals truncated by `int()`.
- `fill_channels` belongs to the file library. It is not part of this model: `ConvertGmtCurveToBlender` assumes curve values already have their type's shape (`EngineTyped`).
- Blender I/O is outside the model: reading and writing files, operators, creating F-curves and keyframe points, actions, armature edit mode, and restructuring the animation into bones.
- Only the bone fields `merge_vector` touches (location and rotation curves) are modelled.
- The length check on the axes is the editor's: `foreach_get` (blender/exporter.py:381-382) fails when an axis has a different number of keyframe points than a non-empty first axis. The model names it `AxisLengthMismatch`, for position and rotation axes alike. With an empty first axis the flag buffer is empty, and the model takes `foreach_get` to read nothing into an empty buffer; a w channel without keys therefore exports a rotation curve without keys (`Exporter.EmptyFirstQuaternionAxis`). That zero-length behaviour is the editor's own and is assumed here, not derived from the add-on's code. For position axes, the `map` at blender/exporter.py:348-352 stops at the shortest axis, so ANY empty axis leaves no values and reaches `print(values[0])` in `transform_location` (blender/exporter.py:427) first; that is `EmptyPositionValues`.
- `Curves.DefaultChannel` stands for the channel the file library gives a new curve. Its exact value is not part of this model; only the fact that it is not a hand channel matters.
- The importer's `add_curve` with an empty secondary curve raises `IndexError` at `other.keyframes[0].frame` (blender/importer.py:424). A merge with an empty curve is not a no-op. The model follows the code: `Err(EmptyOther)`.
- The duplication flag ANDs the CONSTANT test over all axes (blender/exporter.py:378-384), not just the first. The model follows the code.
- `exporter.py` imports `pattern_from_blender` (blender/exporter.py:16-17) and calls it at blender/exporter.py:369, but the converter module does not define it. As written, loading the exporter module fails with `ImportError`. The model uses `pattern1_from_blender`, the function of that shape.
- Importer.AddCurve: requires both key lists to have strictly increasing frames (`Increasing`), and so do `Importer.MergeLocations`, `Importer.MergeRotations`, `CurveMerge.Merge` and `Importer.MergeVector`. The source does not check this. It is the order in which the file library stores keyframes, and the model's neighbour search relies on it.
- Importer.PropertyFromCurveType: its contract states only which types map to no property. The individual names are constrained only up to the role the exporter reads back (`Exporter.ImportedNamesClassify`): any name containing "location" would satisfy it for LOCATION, and any name the exporter ignores would satisfy it for the unused types.
- Exporter.MakeBone: its own contract states the name and acceptance only. The content of the curves is stated by `MakeBoneCount`, `MakeBonePosition`, `MakeBoneRotation` and `MakeBonePatterns`.
