/** Export conversion (`_convert_to_spine_animation`) and the merge of the
    converted animation into a rigged project (`export_animation`): keyframe
    tracks become rotate/translate timelines, the face track becomes an
    attachment timeline, and particles become zero-time events. */
module Exporter {
  import opened Wrappers
  import opened AnimationData
  import opened SpineFormat
  import Synthesis
  import Skeleton
  import AssocList

  // ---- Selecting and mapping the entries a predicate keeps ----

  /** `[f(x) for x in s if keep(x)]`. */
  function Pick<A, B>(s: seq<A>, keep: A -> bool, f: A -> B): (r: seq<B>)
    ensures |r| == Kept(s, keep)
  {
    if |s| == 0 then []
    else (if keep(s[0]) then [f(s[0])] else []) + Pick(s[1..], keep, f)
  }

  /** How many entries of `s` are kept. */
  function Kept<A>(s: seq<A>, keep: A -> bool): (n: nat)
    ensures n <= |s|
  {
    if |s| == 0 then 0
    else (if keep(s[0]) then 1 else 0) + Kept(s[1..], keep)
  }

  lemma {:induction false} PickAppend<A, B>(a: seq<A>, b: seq<A>, keep: A -> bool, f: A -> B)
    ensures Pick(a + b, keep, f) == Pick(a, keep, f) + Pick(b, keep, f)
    ensures Kept(a + b, keep) == Kept(a, keep) + Kept(b, keep)
    decreases |a|
  {
    if |a| == 0 {
      assert a + b == b;
    } else {
      assert (a + b)[1..] == a[1..] + b;
      PickAppend(a[1..], b, keep, f);
    }
  }

  /** Each kept entry `s[i]` lands at the index that counts the kept
      entries before it, so the picked list holds every kept entry, in
      order, and nothing else. */
  lemma PickPlaced<A, B>(s: seq<A>, keep: A -> bool, f: A -> B, i: nat)
    requires i < |s| && keep(s[i])
    ensures Kept(s[..i], keep) < |Pick(s, keep, f)|
    ensures Pick(s, keep, f)[Kept(s[..i], keep)] == f(s[i])
  {
    assert s == s[..i] + [s[i]] + s[i + 1..];
    PickAppend(s[..i] + [s[i]], s[i + 1..], keep, f);
    PickAppend(s[..i], [s[i]], keep, f);
    assert Pick([s[i]], keep, f) == [f(s[i])] by {
      assert [s[i]][1..] == [];
    }
  }

  /** `b` is the image of a kept entry of `s`. */
  predicate PickedFrom<A, B(==)>(s: seq<A>, keep: A -> bool, f: A -> B, b: B) {
    exists i :: 0 <= i < |s| && keep(s[i]) && b == f(s[i])
  }

  /** Every picked value is the image of a kept entry. */
  lemma {:induction false} PickSound<A, B>(s: seq<A>, keep: A -> bool, f: A -> B)
    ensures forall j :: 0 <= j < |Pick(s, keep, f)| ==> PickedFrom(s, keep, f, Pick(s, keep, f)[j])
    decreases |s|
  {
    if |s| > 0 {
      PickSound(s[1..], keep, f);
      var own := if keep(s[0]) then [f(s[0])] else [];
      var rest := Pick(s[1..], keep, f);
      assert Pick(s, keep, f) == own + rest;
      forall j | 0 <= j < |Pick(s, keep, f)|
        ensures PickedFrom(s, keep, f, Pick(s, keep, f)[j])
      {
        if j >= |own| {
          assert Pick(s, keep, f)[j] == rest[j - |own|];
          assert PickedFrom(s[1..], keep, f, rest[j - |own|]);
          var i :| 0 <= i < |s[1..]| && keep(s[1..][i]) && rest[j - |own|] == f(s[1..][i]);
          assert s[i + 1] == s[1..][i];
        } else {
          assert Pick(s, keep, f)[j] == f(s[0]);
        }
      }
    }
  }

  // ---- Bone timelines ----

  const Stepped: string := "stepped"

  /** A keyframe's time; a keyframe without one is at time 0. */
  function TimeOf(k: Keyframe): real {
    k.time.GetOr(0.0)
  }

  predicate Rotates(k: Keyframe) {
    k.rotation.Some?
  }

  predicate Translates(k: Keyframe) {
    k.x.Some? || k.y.Some?
  }

  function RotateOf(k: Keyframe): RotateFrame {
    RotateFrame(TimeOf(k), k.rotation.GetOr(0.0), Stepped)
  }

  /** A translation with a missing axis set to 0. */
  function TranslateOf(k: Keyframe): TranslateFrame {
    TranslateFrame(TimeOf(k), k.x.GetOr(0.0), k.y.GetOr(0.0), Stepped)
  }

  /** The rotate timeline: one stepped frame per keyframe with a rotation. */
  function RotateFrames(ks: seq<Keyframe>): (fs: seq<RotateFrame>)
    ensures |fs| == Kept(ks, Rotates)
  {
    Pick(ks, Rotates, RotateOf)
  }

  /** The translate timeline: one stepped frame per keyframe with an x or
      a y. */
  function TranslateFrames(ks: seq<Keyframe>): (fs: seq<TranslateFrame>)
    ensures |fs| == Kept(ks, Translates)
  {
    Pick(ks, Translates, TranslateOf)
  }

  /** The timelines of one track; the scale timeline is always empty. */
  function TimelineOf(t: Track): (tl: BoneTimeline)
    ensures tl.scale == []
    ensures |tl.rotate| == Kept(t.keyframes, Rotates) && |tl.translate| == Kept(t.keyframes, Translates)
  {
    BoneTimeline(RotateFrames(t.keyframes), TranslateFrames(t.keyframes), [])
  }

  /** Every keyframe with a rotation gives the rotate frame at its rank
      among such keyframes, at its time (0 without one), with its angle;
      likewise every keyframe with an x or y gives a translate frame with
      the missing axis 0. */
  lemma TimelineFrames(t: Track, i: nat)
    requires i < |t.keyframes|
    ensures var k := t.keyframes[i];
      var tl := TimelineOf(t);
      && (Rotates(k) ==>
            var j := Kept(t.keyframes[..i], Rotates);
            j < |tl.rotate| && tl.rotate[j] == RotateFrame(TimeOf(k), k.rotation.value, "stepped"))
      && (Translates(k) ==>
            var j := Kept(t.keyframes[..i], Translates);
            && j < |tl.translate|
            && tl.translate[j] == TranslateFrame(TimeOf(k), k.x.GetOr(0.0), k.y.GetOr(0.0), "stepped"))
  {
    var k := t.keyframes[i];
    if Rotates(k) {
      PickPlaced(t.keyframes, Rotates, RotateOf, i);
    }
    if Translates(k) {
      PickPlaced(t.keyframes, Translates, TranslateOf, i);
    }
  }

  /** A track whose timelines hold at least one frame. */
  predicate Animated(tl: BoneTimeline) {
    |tl.rotate| > 0 || |tl.translate| > 0 || |tl.scale| > 0
  }

  /** The bone loop, from the last track backwards: a track is stored
      under its bone name only when it yields a frame. */
  function BoneTimelines(tracks: seq<Track>): (bones: seq<(string, BoneTimeline)>)
    ensures AssocList.DistinctKeys(bones)
    decreases |tracks|
  {
    if |tracks| == 0 then []
    else
      var bones := BoneTimelines(tracks[..|tracks| - 1]);
      var t := tracks[|tracks| - 1];
      var tl := TimelineOf(t);
      if Animated(tl) then AssocList.Put(bones, t.bone, tl) else bones
  }

  /** A track yields a frame iff one of its keyframes has a rotation, an
      x or a y. */
  lemma AnimatedIff(t: Track)
    ensures Animated(TimelineOf(t)) <==>
      exists i :: 0 <= i < |t.keyframes| && (Rotates(t.keyframes[i]) || Translates(t.keyframes[i]))
  {
    var tl := TimelineOf(t);
    if exists i :: 0 <= i < |t.keyframes| && (Rotates(t.keyframes[i]) || Translates(t.keyframes[i])) {
      var i :| 0 <= i < |t.keyframes| && (Rotates(t.keyframes[i]) || Translates(t.keyframes[i]));
      TimelineFrames(t, i);
    }
    if Animated(tl) {
      if |tl.rotate| > 0 {
        PickSound(t.keyframes, Rotates, RotateOf);
        assert PickedFrom(t.keyframes, Rotates, RotateOf, tl.rotate[0]);
      } else {
        PickSound(t.keyframes, Translates, TranslateOf);
        assert PickedFrom(t.keyframes, Translates, TranslateOf, tl.translate[0]);
      }
    }
  }

  /** Names of the tracks that yield a frame, in track order. */
  function AnimatedNames(tracks: seq<Track>): seq<string> {
    if |tracks| == 0 then []
    else (if Animated(TimelineOf(tracks[0])) then [tracks[0].bone] else []) + AnimatedNames(tracks[1..])
  }

  lemma {:induction false} AnimatedNamesLast(tracks: seq<Track>)
    requires |tracks| > 0
    ensures var t := tracks[|tracks| - 1];
      AnimatedNames(tracks) ==
        AnimatedNames(tracks[..|tracks| - 1]) + (if Animated(TimelineOf(t)) then [t.bone] else [])
    decreases |tracks|
  {
    var n := |tracks| - 1;
    var t := tracks[n];
    var last := if Animated(TimelineOf(t)) then [t.bone] else [];
    if n > 0 {
      var head := if Animated(TimelineOf(tracks[0])) then [tracks[0].bone] else [];
      var rest := tracks[1..];
      AnimatedNamesLast(rest);
      assert rest[|rest| - 1] == t;
      assert rest[..|rest| - 1] == tracks[..n][1..];
      assert AnimatedNames(tracks[..n]) == head + AnimatedNames(tracks[..n][1..]);
      assert AnimatedNames(tracks) == head + AnimatedNames(rest);
    } else {
      assert AnimatedNames(tracks[..n]) == [];
      assert AnimatedNames(tracks) == last + AnimatedNames(tracks[1..]);
    }
  }

  /** Track names of an animation are dictionary keys: distinct. */
  predicate DistinctBones(tracks: seq<Track>) {
    forall i, j :: 0 <= i < j < |tracks| ==> tracks[i].bone != tracks[j].bone
  }

  lemma {:induction false} AnimatedNamesFrom(tracks: seq<Track>, name: string)
    requires forall i :: 0 <= i < |tracks| ==> tracks[i].bone != name
    ensures name !in AnimatedNames(tracks)
    decreases |tracks|
  {
    if |tracks| > 0 {
      AnimatedNamesFrom(tracks[1..], name);
    }
  }

  /** The bone timelines are keyed by the animated tracks, in track order,
      and each holds its track's timelines; tracks without a frame are
      left out. */
  lemma {:induction false} BoneTimelinesKeys(tracks: seq<Track>)
    requires DistinctBones(tracks)
    ensures AssocList.Keys(BoneTimelines(tracks)) == AnimatedNames(tracks)
    decreases |tracks|
  {
    if |tracks| > 0 {
      var n := |tracks| - 1;
      BoneTimelinesKeys(tracks[..n]);
      AnimatedNamesLast(tracks);
      AnimatedNamesFrom(tracks[..n], tracks[n].bone);
    }
  }

  /** Each track's bone holds its timelines when it yields a frame, and
      nothing otherwise. */
  lemma {:induction false} BoneTimelinesEntry(tracks: seq<Track>, i: nat)
    requires DistinctBones(tracks) && i < |tracks|
    ensures AssocList.Lookup(BoneTimelines(tracks), tracks[i].bone) ==
      if Animated(TimelineOf(tracks[i])) then Some(TimelineOf(tracks[i])) else None
    decreases |tracks|
  {
    var n := |tracks| - 1;
    if i < n {
      var init := tracks[..n];
      BoneTimelinesEarlier(tracks, init, i);
      BoneTimelinesEntry(init, i);
    } else {
      BoneTimelinesNewest(tracks);
    }
  }

  /** A bone before the last keeps what the earlier tracks gave it. */
  lemma BoneTimelinesEarlier(tracks: seq<Track>, init: seq<Track>, i: nat)
    requires DistinctBones(tracks) && i < |tracks| - 1 && init == tracks[..|tracks| - 1]
    ensures DistinctBones(init) && init[i] == tracks[i]
    ensures AssocList.Lookup(BoneTimelines(tracks), tracks[i].bone) == AssocList.Lookup(BoneTimelines(init), tracks[i].bone)
  {
    DistinctBonesInit(tracks, init);
    BoneTimelinesLast(tracks, tracks[i].bone);
  }

  /** The last track's bone holds its timelines when it yields a frame. */
  lemma BoneTimelinesNewest(tracks: seq<Track>)
    requires DistinctBones(tracks) && |tracks| > 0
    ensures var t := tracks[|tracks| - 1];
      AssocList.Lookup(BoneTimelines(tracks), t.bone) == if Animated(TimelineOf(t)) then Some(TimelineOf(t)) else None
  {
    var t := tracks[|tracks| - 1];
    BoneTimelinesLast(tracks, t.bone);
    BoneTimelinesFresh(tracks, tracks[..|tracks| - 1]);
  }

  lemma DistinctBonesInit(tracks: seq<Track>, init: seq<Track>)
    requires DistinctBones(tracks) && |tracks| > 0 && init == tracks[..|tracks| - 1]
    ensures DistinctBones(init)
    ensures forall i :: 0 <= i < |init| ==> init[i].bone != tracks[|tracks| - 1].bone
  {
  }

  /** Before the last track is visited, its bone has no timeline yet. */
  lemma BoneTimelinesFresh(tracks: seq<Track>, init: seq<Track>)
    requires DistinctBones(tracks) && |tracks| > 0 && init == tracks[..|tracks| - 1]
    ensures AssocList.Lookup(BoneTimelines(init), tracks[|tracks| - 1].bone).None?
  {
    DistinctBonesInit(tracks, init);
    BoneTimelinesKeys(init);
    AnimatedNamesFrom(init, tracks[|tracks| - 1].bone);
  }

  /** One step of the bone loop: the last track, when it yields a frame,
      stores its timelines under its bone and every other bone is left as
      it was. */
  lemma BoneTimelinesLast(tracks: seq<Track>, k: string)
    requires |tracks| > 0
    ensures var t := tracks[|tracks| - 1];
      AssocList.Lookup(BoneTimelines(tracks), k) ==
        if Animated(TimelineOf(t)) && k == t.bone then Some(TimelineOf(t))
        else AssocList.Lookup(BoneTimelines(tracks[..|tracks| - 1]), k)
  {
  }

  /** A name that is no track's gets no bone timeline. */
  lemma {:induction false} BoneTimelinesAbsent(tracks: seq<Track>, name: string)
    requires name !in TrackNames(tracks)
    ensures AssocList.Lookup(BoneTimelines(tracks), name).None?
    decreases |tracks|
  {
    if |tracks| > 0 {
      var n := |tracks| - 1;
      assert TrackNames(tracks[..n]) == TrackNames(tracks)[..n];
      BoneTimelinesAbsent(tracks[..n], name);
    }
  }

  // ---- Face attachments and events ----

  predicate Expresses(k: Keyframe) {
    k.expression.Some?
  }

  function AttachmentOf(k: Keyframe): AttachmentFrame {
    AttachmentFrame(TimeOf(k), "face_" + k.expression.GetOr(""))
  }

  /** The `slot_face` attachment timeline: one frame per face keyframe with
      an expression, showing the `face_<expression>` attachment. */
  function FaceSlots(tracks: seq<Track>): (slots: seq<(string, SlotTimeline)>)
    ensures |slots| <= 1
    ensures |slots| == 1 <==> "face" in TrackNames(tracks)
    ensures |slots| == 1 ==>
      && slots[0].0 == "slot_face"
      && |slots[0].1.attachment| == Kept(FindTrack(tracks, "face").value.keyframes, Expresses)
  {
    match FindTrack(tracks, "face")
    case None => []
    case Some(face) => [("slot_face", SlotTimeline(Pick(face.keyframes, Expresses, AttachmentOf)))]
  }

  const DefaultColor: string := "#FFFFFF"
  const DefaultCount: int := 10
  const DefaultDuration: real := 1.0

  /** A particle as a zero-time event named after its kind, with the
      colour, count and duration it lacks filled in. */
  function EventOf(p: Particle): (e: EventFrame)
    ensures e.time == 0.0 && e.name == "effect_" + p.kind
    ensures e.stringValue == (if p.color.Some? then p.color.value else "#FFFFFF")
    ensures e.intValue == (if p.count.Some? then p.count.value else 10)
    ensures e.floatValue == (if p.duration.Some? then p.duration.value else 1.0)
  {
    EventFrame(0.0, EffectPrefix + p.kind, p.color.GetOr(DefaultColor), p.count.GetOr(DefaultCount),
               p.duration.GetOr(DefaultDuration))
  }

  const EffectPrefix: string := "effect_"

  /** Reads a particle back from its event: the kind after the `effect_`
      prefix and the three parameters. */
  function ParticleOf(e: EventFrame): (p: Particle)
    ensures p.count == Some(e.intValue) && p.duration == Some(e.floatValue) && p.color == Some(e.stringValue)
    ensures |e.name| >= 7 && e.name[..7] == EffectPrefix ==> EffectPrefix + p.kind == e.name
  {
    var kind := if |e.name| >= 7 && e.name[..7] == EffectPrefix then e.name[7..] else e.name;
    Particle(kind, Some(e.intValue), Some(e.floatValue), Some(e.stringValue))
  }

  /** An event loses nothing of a particle that carries all three
      parameters, as every generated particle does: the particle can be
      read back from it. */
  lemma EventRoundTrip(p: Particle)
    requires p.count.Some? && p.duration.Some? && p.color.Some?
    ensures ParticleOf(EventOf(p)) == p
  {
    var e := EventOf(p);
    assert e.name[..7] == EffectPrefix;
    assert e.name[7..] == p.kind;
  }

  /** The particle effects the generator attaches survive export: each
      one is read back unchanged from its event. */
  lemma GeneratedEffectsExported(description: string, duration: real)
    ensures var ps := Synthesis.Particles(description, duration);
      forall i :: 0 <= i < |ps| ==> ParticleOf(EventOf(ps[i])) == ps[i]
  {
    var ps := Synthesis.Particles(description, duration);
    forall i | 0 <= i < |ps|
      ensures ParticleOf(EventOf(ps[i])) == ps[i]
    {
      assert Synthesis.FixedDescriptor(ps[i]);
      EventRoundTrip(ps[i]);
    }
  }

  /** `_convert_to_spine_animation`. */
  function Convert(a: Animation): (s: SpineAnimation)
    ensures s.deform == [] && s.drawOrder == []
    ensures AssocList.DistinctKeys(s.bones)
    ensures forall name :: name !in TrackNames(a.tracks) ==> AssocList.Lookup(s.bones, name).None?
    ensures |s.slots| == 1 <==> HasTrack(a, "face")
    ensures |s.slots| <= 1 && (|s.slots| == 1 ==> s.slots[0].0 == "slot_face")
    ensures |s.events| == |a.particles|
    ensures forall i :: 0 <= i < |a.particles| ==> s.events[i] == EventOf(a.particles[i])
  {
    forall name | name !in TrackNames(a.tracks)
      ensures AssocList.Lookup(BoneTimelines(a.tracks), name).None?
    {
      BoneTimelinesAbsent(a.tracks, name);
    }
    SpineAnimation(
      BoneTimelines(a.tracks),
      FaceSlots(a.tracks),
      [],
      [],
      seq(|a.particles|, i requires 0 <= i < |a.particles| => EventOf(a.particles[i])))
  }

  /** The bone timelines of a conversion: keyed by the tracks that yield
      a rotate or translate frame, in track order, each holding its
      track's timelines. */
  lemma ConvertBones(a: Animation)
    requires DistinctBones(a.tracks)
    ensures AssocList.Keys(Convert(a).bones) == AnimatedNames(a.tracks)
    ensures forall i :: 0 <= i < |a.tracks| ==>
      AssocList.Lookup(Convert(a).bones, a.tracks[i].bone) ==
        if Animated(TimelineOf(a.tracks[i])) then Some(TimelineOf(a.tracks[i])) else None
  {
    BoneTimelinesKeys(a.tracks);
    forall i | 0 <= i < |a.tracks|
      ensures AssocList.Lookup(Convert(a).bones, a.tracks[i].bone) ==
        if Animated(TimelineOf(a.tracks[i])) then Some(TimelineOf(a.tracks[i])) else None
    {
      BoneTimelinesEntry(a.tracks, i);
    }
  }

  /** The face attachment frames: every face keyframe with an expression,
      in order, at its time, showing `face_<expression>`. */
  lemma FaceFrames(a: Animation, i: nat)
    requires HasTrack(a, "face")
    requires var face := FindTrack(a.tracks, "face").value;
      i < |face.keyframes| && Expresses(face.keyframes[i])
    ensures var face := FindTrack(a.tracks, "face").value;
      var k := face.keyframes[i];
      var j := Kept(face.keyframes[..i], Expresses);
      var frames := Convert(a).slots[0].1.attachment;
      j < |frames| && frames[j] == AttachmentFrame(TimeOf(k), "face_" + k.expression.value)
  {
    var face := FindTrack(a.tracks, "face").value;
    PickPlaced(face.keyframes, Expresses, AttachmentOf, i);
  }

  // ---- The merge ----

  /** The stored metadata of a generated animation. */
  datatype AnimationMeta = AnimationMeta(animationType: Option<string>)

  datatype Exported = Exported(project: SpineProject, animationName: string)

  /** The name an animation is exported under. */
  function ExportName(meta: AnimationMeta): string {
    meta.animationType.GetOr("animation")
  }

  /** `export_animation` without its file reads and writes: with the
      animation and its metadata found and a rig found, the converted
      animation is stored in the project's animation map under the
      animation type, or "animation" without one. */
  function ExportAnimation(meta: Option<AnimationMeta>, data: Option<Animation>, project: Option<SpineProject>): (r: Result<Exported>)
    ensures (meta.None? || data.None?) ==> r == Err(NotFound("animation"))
    ensures meta.Some? && data.Some? && project.None? ==> r == Err(NotFound("rig"))
    ensures r.Ok? <==> meta.Some? && data.Some? && project.Some?
    ensures r.Ok? ==>
      var name := r.value.animationName;
      var before := project.value.animations;
      var after := r.value.project.animations;
      && (meta.value.animationType.Some? ==> name == meta.value.animationType.value)
      && (meta.value.animationType.None? ==> name == "animation")
      && AssocList.Lookup(after, name) == Some(Convert(data.value))
      && (forall other :: other != name ==> AssocList.Lookup(after, other) == AssocList.Lookup(before, other))
      && AssocList.Keys(after) == (if name in AssocList.Keys(before) then AssocList.Keys(before) else AssocList.Keys(before) + [name])
      && r.value.project == project.value.(animations := after)
  {
    if meta.None? || data.None? then Err(NotFound("animation"))
    else if project.None? then Err(NotFound("rig"))
    else
      var name := ExportName(meta.value);
      var p := project.value;
      Ok(Exported(p.(animations := AssocList.Put(p.animations, name, Convert(data.value))), name))
  }

  /** Exporting the same animation twice leaves the project as one export
      does: the merge is idempotent. The program never chains exports,
      since the merged project goes only to the export file. */
  lemma ExportIdempotent(meta: AnimationMeta, data: Animation, project: SpineProject)
    ensures var once := ExportAnimation(Some(meta), Some(data), Some(project)).value.project;
      ExportAnimation(Some(meta), Some(data), Some(once)).value.project == once
  {
    AssocList.PutTwice(project.animations, ExportName(meta), Convert(data));
  }

  /** A freshly rigged project has no animations, so its first export
      holds exactly the converted animation. */
  lemma FirstExport(meta: AnimationMeta, data: Animation, project: SpineProject)
    requires project.animations == []
    ensures ExportAnimation(Some(meta), Some(data), Some(project)).value.project.animations ==
      [(ExportName(meta), Convert(data))]
  {
  }

  /** Every export starts from the project as rigging stored it, because
      the export writes the merged project only to its own file and the
      stored rig keeps its empty animation map. So the exported project is
      the rigged one holding exactly the converted animation, whatever was
      exported before. */
  lemma ExportOfRigged(characterId: string, character: Option<Skeleton.CharacterMeta>,
                       meta: AnimationMeta, data: Animation)
    ensures var rig := Skeleton.RigCharacter(characterId, character);
      rig.Ok? ==>
        var r := ExportAnimation(Some(meta), Some(data), Some(rig.value));
        && r.Ok?
        && r.value.project == rig.value.(animations := [(ExportName(meta), Convert(data))])
  {
    var rig := Skeleton.RigCharacter(characterId, character);
    if rig.Ok? {
      FirstExport(meta, data, rig.value);
    }
  }
}
