/** The records of a Spine project file as the rigging and export stages
    write them: skeleton bones, slots, skin attachments, IK constraints
    and animation timelines. Every JSON object keyed by name is an ordered
    association list. */
module SpineFormat {
  import opened Wrappers

  /** A bone; the root bone alone has no parent. */
  datatype Bone = Bone(name: string, parent: Option<string>, x: real, y: real, length: real)

  /** A draw slot bound to a bone, showing one attachment. */
  datatype Slot = Slot(name: string, bone: string, attachment: string)

  /** A region attachment of a skin. */
  datatype Attachment = Attachment(x: real, y: real, width: real, height: real, path: string)

  /** The single attachment a slot of the default skin holds, by name. */
  datatype SlotSkin = SlotSkin(attachmentName: string, attachment: Attachment)

  datatype IkConstraint = IkConstraint(name: string, target: string, bones: seq<string>, mix: int, bendPositive: bool)

  /** The `skeleton` header of a project. */
  datatype SkeletonMeta = SkeletonMeta(spine: string, width: real, height: real, images: string, audio: string)

  datatype RotateFrame = RotateFrame(time: real, angle: real, curve: string)
  datatype TranslateFrame = TranslateFrame(time: real, x: real, y: real, curve: string)
  datatype ScaleFrame = ScaleFrame(time: real, x: real, y: real)

  /** The timelines of one bone. */
  datatype BoneTimeline = BoneTimeline(rotate: seq<RotateFrame>, translate: seq<TranslateFrame>, scale: seq<ScaleFrame>)

  datatype AttachmentFrame = AttachmentFrame(time: real, name: string)
  datatype SlotTimeline = SlotTimeline(attachment: seq<AttachmentFrame>)

  /** A zero-argument event carrying a particle effect's parameters. */
  datatype EventFrame = EventFrame(time: real, name: string, stringValue: string, intValue: int, floatValue: real)

  /** Deform timelines are keyed by skin; the stages here never write one. */
  datatype DeformTimeline = DeformTimeline(skin: string)

  datatype SpineAnimation = SpineAnimation(
    bones: seq<(string, BoneTimeline)>,
    slots: seq<(string, SlotTimeline)>,
    deform: seq<(string, DeformTimeline)>,
    drawOrder: seq<string>,
    events: seq<EventFrame>)

  datatype SpineProject = SpineProject(
    skeleton: SkeletonMeta,
    bones: seq<Bone>,
    slots: seq<Slot>,
    skins: seq<(string, seq<(string, SlotSkin)>)>,
    ik: seq<IkConstraint>,
    animations: seq<(string, SpineAnimation)>)
}
