/** Rig construction (`_create_skeleton`, `_create_skin`,
    `_create_ik_constraints` and the project assembly of `rig_character`):
    one bone per detected part under a centred root bone, a slot and a
    skin attachment per part with an image, and IK constraints for the
    limb pairs that were both detected. */
module Skeleton {
  import opened Wrappers
  import opened Strings
  import opened Layers
  import opened Structure
  import opened SpineFormat
  import AssocList

  const RootLength: real := 50.0
  const DefaultLength: real := 50.0
  const DefaultAttachmentSize: real := 100.0

  /** The root bone sits at the centre of the canvas. */
  function RootBone(canvas: Size): Bone {
    Bone("root", None, canvas.width / 2.0, canvas.height / 2.0, RootLength)
  }

  /** `p` is the first parent of `hierarchy` whose child list names `part`. */
  predicate FirstParentAt(hierarchy: seq<(string, seq<string>)>, part: string, p: int) {
    0 <= p < |hierarchy| && part in hierarchy[p].1 &&
      forall q :: 0 <= q < p ==> part !in hierarchy[q].1
  }

  /** The index of the first hierarchy entry listing `part`. */
  function ParentIndex(hierarchy: seq<(string, seq<string>)>, part: string): (r: Option<nat>)
    ensures r.Some? ==> FirstParentAt(hierarchy, part, r.value)
    ensures r.None? ==> forall q :: 0 <= q < |hierarchy| ==> part !in hierarchy[q].1
  {
    if |hierarchy| == 0 then None
    else if part in hierarchy[0].1 then Some(0)
    else
      match ParentIndex(hierarchy[1..], part)
      case None =>
        assert forall q :: 1 <= q < |hierarchy| ==> hierarchy[q] == hierarchy[1..][q - 1];
        None
      case Some(p) => Some(p + 1)
  }

  /** The parent loop: the first hierarchy entry listing the part, in table
      order, else "root". */
  function ParentOf(hierarchy: seq<(string, seq<string>)>, part: string): (parent: string)
    ensures (exists p :: FirstParentAt(hierarchy, part, p) && hierarchy[p].0 == parent) ||
            (parent == "root" && forall q :: 0 <= q < |hierarchy| ==> part !in hierarchy[q].1)
  {
    match ParentIndex(hierarchy, part)
    case Some(p) => hierarchy[p].0
    case None => "root"
  }

  /** A layer placed without a size: reading its size raises. */
  predicate Unsized(l: Layer) {
    l.position.Some? && l.dimensions.None?
  }

  function Max(a: real, b: real): (m: real)
    ensures m >= a && m >= b && (m == a || m == b)
  {
    if a >= b then a else b
  }

  /** The bone of one part, relative to the root: the centre of the
      layer's box, in y-up coordinates, minus the canvas centre; a layer
      without a position sits on the root. */
  function PartBone(part: string, l: Layer, hierarchy: seq<(string, seq<string>)>, canvas: Size): (r: Result<Bone>)
    ensures r.Err? <==> Unsized(l)
    ensures r.Err? ==> r.error == KeyError("dimensions")
    ensures r.Ok? ==> r.value.name == part && r.value.parent == Some(ParentOf(hierarchy, part))
    ensures r.Ok? && l.position.Some? ==>
      && r.value.x == l.position.value.x + l.dimensions.value.width / 2.0 - canvas.width / 2.0
      && r.value.y == canvas.height / 2.0 - l.position.value.y - l.dimensions.value.height / 2.0
    ensures r.Ok? && l.position.None? ==> r.value.x == 0.0 && r.value.y == 0.0
    ensures r.Ok? && l.dimensions.Some? ==>
      && r.value.length >= l.dimensions.value.width / 2.0
      && r.value.length >= l.dimensions.value.height / 2.0
      && (r.value.length == l.dimensions.value.width / 2.0 || r.value.length == l.dimensions.value.height / 2.0)
    ensures r.Ok? && l.dimensions.None? ==> r.value.length == DefaultLength
  {
    var centre :- match l.position
      case Some(pos) =>
        (match l.dimensions
         case None => Err(KeyError("dimensions"))
         case Some(d) => Ok((pos.x + d.width / 2.0, canvas.height - pos.y - d.height / 2.0)))
      case None => Ok((canvas.width / 2.0, canvas.height / 2.0));
    var length := match l.dimensions
      case Some(d) => Max(d.width, d.height) / 2.0
      case None => DefaultLength;
    Ok(Bone(part, Some(ParentOf(hierarchy, part)),
            centre.0 - canvas.width / 2.0, centre.1 - canvas.height / 2.0, length))
  }

  /** A layer with a non-empty image file gets a slot. */
  predicate HasImage(l: Layer) {
    l.imagePath.Some? && l.imagePath.value != ""
  }

  /** The image's attachment name: its path with every ".png" removed,
      scanning left to right. */
  function AttachmentName(path: string): (name: string)
    ensures |name| <= |path|
    ensures !Contains(path, ".png") ==> name == path
    ensures forall j: nat :: FirstOccurrence(path, ".png", j) ==>
      name == path[..j] + AttachmentName(path[j + 4..])
  {
    RemoveAllFirstEvery(path, ".png");
    RemoveAll(path, ".png")
  }

  function SlotName(part: string): string {
    "slot_" + part
  }

  /** The slot of an imaged part: named after the part, bound to the
      part's bone, showing the image without its extension. */
  function PartSlot(part: string, l: Layer): (s: Slot)
    requires HasImage(l)
    ensures s.bone == part && |s.name| == 5 + |part| && s.name[..5] == "slot_" && s.name[5..] == part
    ensures s.attachment == AttachmentName(l.imagePath.value)
  {
    Slot(SlotName(part), part, AttachmentName(l.imagePath.value))
  }

  /** Some part of `parts` was placed without a size. */
  predicate AnyUnsized(parts: seq<(string, Layer)>) {
    exists i :: 0 <= i < |parts| && Unsized(parts[i].1)
  }

  /** Number of parts with an image. */
  function ImagedCount(parts: seq<(string, Layer)>): nat {
    if |parts| == 0 then 0
    else (if HasImage(parts[0].1) then 1 else 0) + ImagedCount(parts[1..])
  }

  datatype Rigging = Rigging(bones: seq<Bone>, slots: seq<Slot>)

  /** Every slot is the slot of some imaged part. */
  predicate SlotsFromParts(parts: seq<(string, Layer)>, slots: seq<Slot>) {
    forall j :: 0 <= j < |slots| ==>
      exists i :: 0 <= i < |parts| && HasImage(parts[i].1) && slots[j] == PartSlot(parts[i].0, parts[i].1)
  }

  /** Every imaged part has its slot. */
  predicate SlotsCoverParts(parts: seq<(string, Layer)>, slots: seq<Slot>) {
    forall i :: 0 <= i < |parts| && HasImage(parts[i].1) ==> PartSlot(parts[i].0, parts[i].1) in slots
  }

  lemma SlotsCons(parts: seq<(string, Layer)>, slots: seq<Slot>)
    requires |parts| > 0
    requires SlotsFromParts(parts[1..], slots) && SlotsCoverParts(parts[1..], slots)
    ensures var own := if HasImage(parts[0].1) then [PartSlot(parts[0].0, parts[0].1)] else [];
      SlotsFromParts(parts, own + slots) && SlotsCoverParts(parts, own + slots)
  {
    var own := if HasImage(parts[0].1) then [PartSlot(parts[0].0, parts[0].1)] else [];
    var all := own + slots;
    forall j | 0 <= j < |all|
      ensures exists i :: 0 <= i < |parts| && HasImage(parts[i].1) && all[j] == PartSlot(parts[i].0, parts[i].1)
    {
      if j < |own| {
        assert all[j] == PartSlot(parts[0].0, parts[0].1);
      } else {
        var i :| 0 <= i < |parts[1..]| && HasImage(parts[1..][i].1) && slots[j - |own|] == PartSlot(parts[1..][i].0, parts[1..][i].1);
        assert parts[i + 1] == parts[1..][i];
      }
    }
    forall i | 0 <= i < |parts| && HasImage(parts[i].1)
      ensures PartSlot(parts[i].0, parts[i].1) in all
    {
      if i > 0 {
        assert parts[i] == parts[1..][i - 1];
      }
    }
  }

  /** The loop over the parts: one bone per part, in parts order, and a
      slot for each part with an image. The first part placed without a
      size raises. */
  function PartBones(parts: seq<(string, Layer)>, hierarchy: seq<(string, seq<string>)>, canvas: Size): (r: Result<Rigging>)
    ensures r.Err? <==> AnyUnsized(parts)
    ensures r.Err? ==> r.error == KeyError("dimensions")
    ensures r.Ok? ==> |r.value.bones| == |parts|
    ensures r.Ok? ==> forall i :: 0 <= i < |parts| ==>
      PartBone(parts[i].0, parts[i].1, hierarchy, canvas) == Ok(r.value.bones[i])
    ensures r.Ok? ==> |r.value.slots| == ImagedCount(parts)
    ensures r.Ok? ==> SlotsFromParts(parts, r.value.slots) && SlotsCoverParts(parts, r.value.slots)
  {
    if |parts| == 0 then Ok(Rigging([], []))
    else
      var (part, l) := parts[0];
      var rest := PartBones(parts[1..], hierarchy, canvas);
      assert AnyUnsized(parts) <==> Unsized(l) || AnyUnsized(parts[1..]) by {
        if AnyUnsized(parts[1..]) {
          var i :| 0 <= i < |parts[1..]| && Unsized(parts[1..][i].1);
          assert parts[i + 1] == parts[1..][i];
        }
        if AnyUnsized(parts) && !Unsized(l) {
          var i :| 0 <= i < |parts| && Unsized(parts[i].1);
          assert parts[1..][i - 1] == parts[i];
        }
      }
      var bone :- PartBone(part, l, hierarchy, canvas);
      var tail :- rest;
      var own := if HasImage(l) then [PartSlot(part, l)] else [];
      var r := Rigging([bone] + tail.bones, own + tail.slots);
      SlotsCons(parts, tail.slots);
      assert forall i :: 1 <= i < |parts| ==> parts[i] == parts[1..][i - 1];
      Ok(r)
  }

  /** `_create_skeleton`: the root bone, then the part bones and slots. */
  function CreateSkeleton(rig: RigData, canvas: Size): (r: Result<Rigging>)
    ensures r.Err? <==> AnyUnsized(rig.parts)
    ensures r.Ok? ==> |r.value.bones| == 1 + |rig.parts|
    ensures r.Ok? ==> r.value.bones[0] == RootBone(canvas)
    ensures r.Ok? ==> forall i :: 0 <= i < |rig.parts| ==>
      PartBone(rig.parts[i].0, rig.parts[i].1, rig.hierarchy, canvas) == Ok(r.value.bones[i + 1])
    ensures r.Ok? ==> |r.value.slots| == ImagedCount(rig.parts)
    ensures r.Ok? ==> SlotsFromParts(rig.parts, r.value.slots) && SlotsCoverParts(rig.parts, r.value.slots)
  {
    var parts :- PartBones(rig.parts, rig.hierarchy, canvas);
    var r := Rigging([RootBone(canvas)] + parts.bones, parts.slots);
    assert forall i :: 0 <= i < |parts.bones| ==> r.bones[i + 1] == parts.bones[i];
    Ok(r)
  }

  /** The skin attachment of an imaged part: at the slot origin, with the
      layer's size or 100 by 100. */
  function PartSkin(l: Layer): (s: SlotSkin)
    requires HasImage(l)
    ensures s.attachmentName == AttachmentName(l.imagePath.value)
    ensures s.attachment.x == 0.0 && s.attachment.y == 0.0 && s.attachment.path == l.imagePath.value
    ensures l.dimensions.Some? ==> s.attachment.width == l.dimensions.value.width && s.attachment.height == l.dimensions.value.height
    ensures l.dimensions.None? ==> s.attachment.width == DefaultAttachmentSize && s.attachment.height == DefaultAttachmentSize
  {
    var size := l.dimensions.GetOr(Size(DefaultAttachmentSize, DefaultAttachmentSize));
    SlotSkin(AttachmentName(l.imagePath.value), Attachment(0.0, 0.0, size.width, size.height, l.imagePath.value))
  }

  /** The slot names of the imaged parts, in parts order. */
  function ImagedSlotNames(parts: seq<(string, Layer)>): (names: seq<string>)
    ensures |names| == ImagedCount(parts)
  {
    if |parts| == 0 then []
    else (if HasImage(parts[0].1) then [SlotName(parts[0].0)] else []) + ImagedSlotNames(parts[1..])
  }

  /** The skin loop, from the last part backwards. */
  function SkinOf(parts: seq<(string, Layer)>): (skin: seq<(string, SlotSkin)>)
    decreases |parts|
  {
    if |parts| == 0 then []
    else
      var skin := SkinOf(parts[..|parts| - 1]);
      var (part, l) := parts[|parts| - 1];
      if HasImage(l) then AssocList.Put(skin, SlotName(part), PartSkin(l)) else skin
  }

  lemma ImagedSlotNamesLast(parts: seq<(string, Layer)>)
    requires |parts| > 0
    ensures var (part, l) := parts[|parts| - 1];
      ImagedSlotNames(parts) ==
        ImagedSlotNames(parts[..|parts| - 1]) + (if HasImage(l) then [SlotName(part)] else [])
    decreases |parts|
  {
    if |parts| > 1 {
      ImagedSlotNamesLast(parts[1..]);
      assert parts[1..][..|parts[1..]| - 1] == parts[..|parts| - 1][1..];
    }
  }

  lemma SlotNameInjective(a: string, b: string)
    ensures SlotName(a) == SlotName(b) ==> a == b
  {
    if SlotName(a) == SlotName(b) {
      assert a == SlotName(a)[5..];
    }
  }

  /** With distinct part keys the slot names are distinct too, so every
      skin assignment adds a new key at the end: the skin keys are the slot
      names, in parts order. */
  lemma {:induction false} SkinKeys(parts: seq<(string, Layer)>)
    requires AssocList.DistinctKeys(parts)
    ensures AssocList.Keys(SkinOf(parts)) == ImagedSlotNames(parts)
    decreases |parts|
  {
    if |parts| > 0 {
      var n := |parts| - 1;
      var init := parts[..n];
      var (part, l) := parts[n];
      assert AssocList.DistinctKeys(init);
      SkinKeys(init);
      ImagedSlotNamesLast(parts);
      if HasImage(l) {
        ImagedNamesFrom(init, part);
      }
    }
  }

  /** Each imaged part's slot name holds the part's attachment. */
  lemma SkinEntries(parts: seq<(string, Layer)>)
    requires AssocList.DistinctKeys(parts)
    ensures forall i :: 0 <= i < |parts| && HasImage(parts[i].1) ==>
      AssocList.Lookup(SkinOf(parts), SlotName(parts[i].0)) == Some(PartSkin(parts[i].1))
  {
    forall i | 0 <= i < |parts| && HasImage(parts[i].1)
      ensures AssocList.Lookup(SkinOf(parts), SlotName(parts[i].0)) == Some(PartSkin(parts[i].1))
    {
      SkinEntry(parts, i);
    }
  }

  lemma {:induction false} SkinEntry(parts: seq<(string, Layer)>, i: nat)
    requires AssocList.DistinctKeys(parts) && i < |parts| && HasImage(parts[i].1)
    ensures AssocList.Lookup(SkinOf(parts), SlotName(parts[i].0)) == Some(PartSkin(parts[i].1))
    decreases |parts|
  {
    var n := |parts| - 1;
    SkinLast(parts, SlotName(parts[i].0));
    if i < n {
      var init := parts[..n];
      assert init[i] == parts[i];
      assert AssocList.DistinctKeys(init);
      SlotNameInjective(parts[i].0, parts[n].0);
      SkinEntry(init, i);
    }
  }

  /** One step of the skin loop: the last part, when imaged, stores its
      attachment under its slot name; other names keep their entries. */
  lemma SkinLast(parts: seq<(string, Layer)>, k: string)
    requires |parts| > 0
    ensures var (part, l) := parts[|parts| - 1];
      AssocList.Lookup(SkinOf(parts), k) ==
        if HasImage(l) && k == SlotName(part) then Some(PartSkin(l))
        else AssocList.Lookup(SkinOf(parts[..|parts| - 1]), k)
  {
  }

  /** A part missing from `parts` has no slot name among theirs. */
  lemma {:induction false} ImagedNamesFrom(parts: seq<(string, Layer)>, part: string)
    requires forall i :: 0 <= i < |parts| ==> parts[i].0 != part
    ensures SlotName(part) !in ImagedSlotNames(parts)
    decreases |parts|
  {
    if |parts| > 0 {
      SlotNameInjective(parts[0].0, part);
      ImagedNamesFrom(parts[1..], part);
    }
  }

  /** `_create_skin`: one entry per imaged part, keyed by its slot name. */
  function CreateSkin(rig: RigData): (skin: seq<(string, SlotSkin)>)
    requires AssocList.DistinctKeys(rig.parts)
    ensures AssocList.Keys(skin) == ImagedSlotNames(rig.parts)
    ensures forall i :: 0 <= i < |rig.parts| && HasImage(rig.parts[i].1) ==>
      AssocList.Lookup(skin, SlotName(rig.parts[i].0)) == Some(PartSkin(rig.parts[i].1))
  {
    SkinKeys(rig.parts);
    SkinEntries(rig.parts);
    SkinOf(rig.parts)
  }

  /** The limb pairs that get an IK constraint, in emission order:
      constraint name, distal target, proximal bone, bend direction. */
  const IkTable: seq<(string, string, string, bool)> := [
    ("arm_right_ik", "hand_right", "arm_right", true),
    ("arm_left_ik", "hand_left", "arm_left", false),
    ("leg_right_ik", "foot_right", "leg_right", false),
    ("leg_left_ik", "foot_left", "leg_left", false)
  ]

  function IkOf(row: (string, string, string, bool)): IkConstraint {
    IkConstraint(row.0, row.1, [row.2], 1, row.3)
  }

  /** Both limbs of table row `row` were detected. */
  predicate LimbsDetected(parts: seq<(string, Layer)>, row: (string, string, string, bool)) {
    row.2 in AssocList.Keys(parts) && row.1 in AssocList.Keys(parts)
  }

  /** The constraints of the table rows whose limbs were both detected,
      in table order. */
  function DetectedIk(parts: seq<(string, Layer)>, rows: seq<(string, string, string, bool)>): (ik: seq<IkConstraint>)
    ensures |ik| <= |rows|
    ensures forall c :: c in ik <==> exists r :: 0 <= r < |rows| && LimbsDetected(parts, rows[r]) && c == IkOf(rows[r])
  {
    if |rows| == 0 then []
    else
      var rest := DetectedIk(parts, rows[1..]);
      assert forall r :: 1 <= r < |rows| ==> rows[r] == rows[1..][r - 1];
      (if LimbsDetected(parts, rows[0]) then [IkOf(rows[0])] else []) + rest
  }

  /** `_create_ik_constraints`: four independent checks, in the order of
      the source. */
  function CreateIk(rig: RigData): (ik: seq<IkConstraint>)
    ensures ik == DetectedIk(rig.parts, IkTable)
  {
    var keys := AssocList.Keys(rig.parts);
    DetectedIkTable(rig.parts);
    (if "arm_right" in keys && "hand_right" in keys then
       [IkConstraint("arm_right_ik", "hand_right", ["arm_right"], 1, true)] else [])
    + (if "arm_left" in keys && "hand_left" in keys then
       [IkConstraint("arm_left_ik", "hand_left", ["arm_left"], 1, false)] else [])
    + (if "leg_right" in keys && "foot_right" in keys then
       [IkConstraint("leg_right_ik", "foot_right", ["leg_right"], 1, false)] else [])
    + (if "leg_left" in keys && "foot_left" in keys then
       [IkConstraint("leg_left_ik", "foot_left", ["leg_left"], 1, false)] else [])
  }

  lemma DetectedIkTable(parts: seq<(string, Layer)>)
    ensures var keys := AssocList.Keys(parts);
      DetectedIk(parts, IkTable) ==
        (if "arm_right" in keys && "hand_right" in keys then [IkOf(IkTable[0])] else [])
        + (if "arm_left" in keys && "hand_left" in keys then [IkOf(IkTable[1])] else [])
        + (if "leg_right" in keys && "foot_right" in keys then [IkOf(IkTable[2])] else [])
        + (if "leg_left" in keys && "foot_left" in keys then [IkOf(IkTable[3])] else [])
  {
    var t := IkTable;
    var one := (r: (string, string, string, bool)) => if LimbsDetected(parts, r) then [IkOf(r)] else [];
    assert DetectedIk(parts, t[4..]) == [];
    assert t[3..][1..] == t[4..];
    assert DetectedIk(parts, t[3..]) == one(t[3]);
    assert t[2..][1..] == t[3..];
    assert DetectedIk(parts, t[2..]) == one(t[2]) + one(t[3]);
    assert t[1..][1..] == t[2..];
    assert DetectedIk(parts, t[1..]) == one(t[1]) + one(t[2]) + one(t[3]);
    assert DetectedIk(parts, t) == one(t[0]) + one(t[1]) + one(t[2]) + one(t[3]);
  }

  /** At most four constraints, one per limb pair with both limbs
      detected, each with full mix on a one-bone chain; only the right arm
      bends positively. */
  lemma IkShape(rig: RigData)
    ensures var ik := CreateIk(rig);
      && |ik| <= 4
      && (forall r :: 0 <= r < |IkTable| ==> (IkOf(IkTable[r]) in ik <==> LimbsDetected(rig.parts, IkTable[r])))
      && (forall c :: c in ik ==> c.mix == 1 && |c.bones| == 1 && (c.bendPositive <==> c.name == "arm_right_ik"))
      && (forall c :: c in ik ==> c.bones[0] in AssocList.Keys(rig.parts) && c.target in AssocList.Keys(rig.parts))
  {
    IkRows(rig);
  }

  /** A table row's constraint is present exactly when both its limbs were
      detected: no two rows share a constraint name. */
  lemma IkRows(rig: RigData)
    ensures forall r :: 0 <= r < |IkTable| ==> (IkOf(IkTable[r]) in CreateIk(rig) <==> LimbsDetected(rig.parts, IkTable[r]))
  {
    var ik := CreateIk(rig);
    forall r | 0 <= r < |IkTable|
      ensures IkOf(IkTable[r]) in ik <==> LimbsDetected(rig.parts, IkTable[r])
    {
      if IkOf(IkTable[r]) in ik {
        var r' :| 0 <= r' < |IkTable| && LimbsDetected(rig.parts, IkTable[r']) && IkOf(IkTable[r]) == IkOf(IkTable[r']);
        assert IkTable[r'].0 == IkOf(IkTable[r']).name;
        assert r == r';
      }
    }
  }

  /** The stored metadata of a parsed character: its canvas size and its
      layer tree, either of which may be missing. */
  datatype CharacterMeta = CharacterMeta(dimensions: Option<Size>, layers: Option<seq<Layer>>)

  const SpineVersion: string := "4.1.00"

  function ImagesPath(characterId: string): string {
    "../characters/" + characterId + "/"
  }

  /** `rig_character` without its file writes and identifiers: look up the
      character, infer its structure, build skeleton, skin and IK
      constraints, and assemble a project with no animations. */
  function RigCharacter(characterId: string, metadata: Option<CharacterMeta>): (r: Result<SpineProject>)
    ensures metadata.None? ==> r == Err(NotFound("character"))
    ensures metadata.Some? ==>
      var rig := AnalyzeStructure(metadata.value.layers.GetOr([]));
      (r.Err? <==> metadata.value.dimensions.None? || AnyUnsized(rig.parts))
    ensures r.Ok? ==>
      var canvas := metadata.value.dimensions.value;
      var rig := AnalyzeStructure(metadata.value.layers.GetOr([]));
      && r.value.skeleton == SkeletonMeta(SpineVersion, canvas.width, canvas.height, ImagesPath(characterId), "")
      && r.value.bones == CreateSkeleton(rig, canvas).value.bones
      && r.value.slots == CreateSkeleton(rig, canvas).value.slots
      && AssocList.Keys(r.value.skins) == ["default"]
      && r.value.skins[0].1 == CreateSkin(rig)
      && r.value.ik == CreateIk(rig)
      && r.value.animations == []
  {
    match metadata
    case None => Err(NotFound("character"))
    case Some(meta) =>
      var rig := AnalyzeStructure(meta.layers.GetOr([]));
      match meta.dimensions
      case None => Err(KeyError("dimensions"))
      case Some(canvas) =>
        var skeleton :- CreateSkeleton(rig, canvas);
        var skin := CreateSkin(rig);
        var ik := CreateIk(rig);
        Ok(SpineProject(
          SkeletonMeta(SpineVersion, canvas.width, canvas.height, ImagesPath(characterId), ""),
          skeleton.bones, skeleton.slots, [("default", skin)], ik, []))
  }

  /** A skeleton's bones are the root and one bone per part, named after
      it, in part order. */
  lemma SkeletonBoneOrder(rig: RigData, canvas: Size)
    requires CreateSkeleton(rig, canvas).Ok?
    ensures var bones := CreateSkeleton(rig, canvas).value.bones;
      && bones[0].name == "root"
      && forall i :: 1 <= i < |bones| ==> bones[i].name == rig.parts[i - 1].0
  {
    var bones := CreateSkeleton(rig, canvas).value.bones;
    forall i | 1 <= i < |bones|
      ensures bones[i].name == rig.parts[i - 1].0
    {
      assert PartBone(rig.parts[i - 1].0, rig.parts[i - 1].1, rig.hierarchy, canvas) == Ok(bones[i]);
    }
  }

  /** With distinct part names other than "root", the bone names are
      distinct, and every part has its bone. */
  lemma SkeletonBoneNames(rig: RigData, canvas: Size)
    requires CreateSkeleton(rig, canvas).Ok?
    requires AssocList.DistinctKeys(rig.parts)
    requires forall i :: 0 <= i < |rig.parts| ==> rig.parts[i].0 in PartNames
    ensures var bones := CreateSkeleton(rig, canvas).value.bones;
      forall i, j :: 0 <= i < j < |bones| ==> bones[i].name != bones[j].name
    ensures forall k :: k in AssocList.Keys(rig.parts) ==>
      exists b :: b in CreateSkeleton(rig, canvas).value.bones && b.name == k
  {
    var bones := CreateSkeleton(rig, canvas).value.bones;
    SkeletonBoneOrder(rig, canvas);
    DistinctBoneNames(bones, rig.parts);
    forall k | k in AssocList.Keys(rig.parts)
      ensures exists b :: b in bones && b.name == k
    {
      var i :| 0 <= i < |rig.parts| && AssocList.Keys(rig.parts)[i] == k;
      assert bones[i + 1] in bones;
    }
  }

  /** A root bone followed by one bone per distinct part name has distinct
      names. */
  lemma DistinctBoneNames(bones: seq<Bone>, parts: seq<(string, Layer)>)
    requires |bones| == 1 + |parts| && bones[0].name == "root"
    requires forall i :: 1 <= i < |bones| ==> bones[i].name == parts[i - 1].0
    requires AssocList.DistinctKeys(parts)
    requires forall i :: 0 <= i < |parts| ==> parts[i].0 in PartNames
    ensures forall i, j :: 0 <= i < j < |bones| ==> bones[i].name != bones[j].name
  {
    assert "root" !in PartNames;
    forall i, j | 0 <= i < j < |bones|
      ensures bones[i].name != bones[j].name
    {
      if i == 0 {
        assert parts[j - 1].0 in PartNames;
      }
    }
  }

  /** Every slot of a skeleton is bound to one of its bones. */
  lemma SkeletonSlotBones(rig: RigData, canvas: Size)
    requires CreateSkeleton(rig, canvas).Ok?
    requires AssocList.DistinctKeys(rig.parts)
    requires forall i :: 0 <= i < |rig.parts| ==> rig.parts[i].0 in PartNames
    ensures var s := CreateSkeleton(rig, canvas).value;
      forall slot :: slot in s.slots ==> exists b :: b in s.bones && b.name == slot.bone
  {
    var s := CreateSkeleton(rig, canvas).value;
    SkeletonBoneNames(rig, canvas);
    forall slot | slot in s.slots
      ensures exists b :: b in s.bones && b.name == slot.bone
    {
      var j :| 0 <= j < |s.slots| && s.slots[j] == slot;
      var i :| 0 <= i < |rig.parts| && HasImage(rig.parts[i].1) && slot == PartSlot(rig.parts[i].0, rig.parts[i].1);
      assert AssocList.Keys(rig.parts)[i] == rig.parts[i].0;
    }
  }

  /** A rigged project is self-consistent: the root bone first, distinct
      bone names, and every slot and IK constraint refers to a bone the
      project has (a bone's parent, by contrast, may name a part that was
      not detected). */
  lemma RiggedProject(characterId: string, metadata: Option<CharacterMeta>)
    ensures var r := RigCharacter(characterId, metadata);
      r.Ok? ==> var p := r.value;
      && |p.bones| >= 1 && p.bones[0].name == "root" && p.bones[0].parent.None?
      && (forall i, j :: 0 <= i < j < |p.bones| ==> p.bones[i].name != p.bones[j].name)
      && (forall s :: s in p.slots ==> exists b :: b in p.bones && b.name == s.bone)
      && (forall c :: c in p.ik ==> exists b :: b in p.bones && b.name == c.target)
      && (forall c :: c in p.ik ==> exists b :: b in p.bones && b.name == c.bones[0])
  {
    if RigCharacter(characterId, metadata).Ok? {
      var meta := metadata.value;
      var canvas := meta.dimensions.value;
      var rig := AnalyzeStructure(meta.layers.GetOr([]));
      SkeletonBoneNames(rig, canvas);
      SkeletonSlotBones(rig, canvas);
      IkShape(rig);
    }
  }
}
