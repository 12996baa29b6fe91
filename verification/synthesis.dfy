/** The motion synthesizer of src/animation_generator.py: template lookup,
    emotion modulation, the derived hair track, particle annotations and
    the pure part of `generate_animation` (parse, template, emotion,
    character adjustment, physics and effects). */
module Synthesis {
  import opened Wrappers
  import opened Strings
  import opened AnimationData
  import opened Interpreter
  import AssocList

  /** `_get_template`: the stored template of that name, or the idle
      template for an unknown name. Animations are immutable values, so the
      result is a copy by construction and the table cannot be altered. */
  function GetTemplate(motion: string): (a: Animation)
    ensures motion in TemplateNames ==>
      exists i :: 0 <= i < |Templates| && Templates[i].0 == motion && a == Templates[i].1
    ensures motion !in TemplateNames ==> a == IdleTemplate
    ensures WellFormedTemplate(a)
  {
    TablesKeys();
    TemplatesWellFormed();
    match AssocList.Lookup(Templates, motion)
    case Some(t) => t
    case None => IdleTemplate
  }

  /** The speed factor at a given intensity. */
  function Speed(m: Emotion, intensity: real): real {
    1.0 + (m.speed - 1.0) * intensity
  }

  /** The energy factor at a given intensity. */
  function Energy(m: Emotion, intensity: real): real {
    1.0 + (m.energy - 1.0) * intensity
  }

  /** `o'` is `o` multiplied by `e`: present exactly when `o` is. */
  predicate ScaledBy(o': Option<real>, o: Option<real>, e: real) {
    o'.Some? == o.Some? && (o.Some? ==> o'.value == o.value * e)
  }

  /** `if prop in keyframe and keyframe[prop] != 0: keyframe[prop] *= e`. */
  function ScaleField(o: Option<real>, e: real): (r: Option<real>)
    ensures ScaledBy(r, o, e)
  {
    match o
    case None => None
    case Some(v) => Some(if v != 0.0 then v * e else v)
  }

  /** A "neutral" expression becomes `base`; every other one is kept. */
  predicate ExpressionRewritten(e': Option<string>, e: Option<string>, base: string) {
    if e == Some("neutral") then e' == Some(base) else e' == e
  }

  /** What modulation does to one keyframe: a face keyframe has its
      expression rewritten, any other has rotation, x and y scaled by the
      energy factor; the time and every other field are kept. */
  predicate KeyframeModulated(k': Keyframe, k: Keyframe, face: bool, base: string, energy: real) {
    && k'.time == k.time
    && (face ==>
          ExpressionRewritten(k'.expression, k.expression, base) &&
          k'.rotation == k.rotation && k'.x == k.x && k'.y == k.y)
    && (!face ==>
          k'.expression == k.expression &&
          ScaledBy(k'.rotation, k.rotation, energy) &&
          ScaledBy(k'.x, k.x, energy) &&
          ScaledBy(k'.y, k.y, energy))
  }

  function ModulateKeyframe(k: Keyframe, face: bool, base: string, energy: real): (k': Keyframe)
    ensures KeyframeModulated(k', k, face, base, energy)
  {
    if face then
      k.(expression := if k.expression == Some("neutral") then Some(base) else k.expression)
    else
      k.(rotation := ScaleField(k.rotation, energy), x := ScaleField(k.x, energy), y := ScaleField(k.y, energy))
  }

  function ModulateTrack(t: Track, base: string, energy: real): (t': Track)
    ensures t'.bone == t.bone && |t'.keyframes| == |t.keyframes|
    ensures forall j :: 0 <= j < |t.keyframes| ==>
      KeyframeModulated(t'.keyframes[j], t.keyframes[j], t.bone == "face", base, energy)
  {
    Track(t.bone, seq(|t.keyframes|, j requires 0 <= j < |t.keyframes| =>
      ModulateKeyframe(t.keyframes[j], t.bone == "face", base, energy)))
  }

  /** Every keyframe of every face track has an expression; otherwise the
      source's `keyframe["expression"]` raises a KeyError. */
  predicate FaceExpressionsPresent(ts: seq<Track>) {
    forall i, j :: 0 <= i < |ts| && ts[i].bone == "face" && 0 <= j < |ts[i].keyframes| ==>
      ts[i].keyframes[j].expression.Some?
  }

  /** `b` is `a` modulated by emotion `m` at `intensity`: the duration is
      divided by the speed factor, track names, keyframe counts and times
      are kept, and every keyframe is modulated. */
  predicate Modulated(b: Animation, a: Animation, m: Emotion, intensity: real) {
    && b.name == a.name
    && b.particles == a.particles
    && b.duration * Speed(m, intensity) == a.duration
    && |b.tracks| == |a.tracks|
    && (forall i :: 0 <= i < |a.tracks| ==>
          b.tracks[i].bone == a.tracks[i].bone &&
          |b.tracks[i].keyframes| == |a.tracks[i].keyframes|)
    && (forall i, j :: 0 <= i < |a.tracks| && 0 <= j < |a.tracks[i].keyframes| ==>
          KeyframeModulated(b.tracks[i].keyframes[j], a.tracks[i].keyframes[j],
                            a.tracks[i].bone == "face", m.baseExpression, Energy(m, intensity)))
  }

  function ModulateTracks(ts: seq<Track>, base: string, energy: real): (ts': seq<Track>)
    ensures |ts'| == |ts|
    ensures forall i :: 0 <= i < |ts| ==>
      ts'[i].bone == ts[i].bone && |ts'[i].keyframes| == |ts[i].keyframes|
    ensures forall i, j :: 0 <= i < |ts| && 0 <= j < |ts[i].keyframes| ==>
      KeyframeModulated(ts'[i].keyframes[j], ts[i].keyframes[j], ts[i].bone == "face", base, energy)
  {
    seq(|ts|, i requires 0 <= i < |ts| => ModulateTrack(ts[i], base, energy))
  }

  /** Modulation by a known emotion modifier `m`. */
  function ApplyModifier(a: Animation, m: Emotion, intensity: real): (r: Result<Animation>)
    ensures r.Ok? <==> Speed(m, intensity) != 0.0 && FaceExpressionsPresent(a.tracks)
    ensures r.Ok? ==> Modulated(r.value, a, m, intensity)
  {
    var speed := Speed(m, intensity);
    var energy := Energy(m, intensity);
    if speed != 1.0 && speed == 0.0 then Err(ZeroDivision)
    else if !FaceExpressionsPresent(a.tracks) then Err(KeyError("expression"))
    else
      var duration := if speed != 1.0 then a.duration / speed else a.duration;
      Ok(a.(duration := duration, tracks := ModulateTracks(a.tracks, m.baseExpression, energy)))
  }

  /** `_apply_emotion`. An emotion outside the table (such as "neutral")
      leaves the animation unchanged; for a table emotion, a zero speed
      factor raises a division error and a face keyframe without an
      expression raises a KeyError. */
  function ApplyEmotion(a: Animation, emotion: string, intensity: real): (r: Result<Animation>)
    ensures emotion !in EmotionNames ==> r == Ok(a)
    ensures emotion in EmotionNames ==>
      var m := FindEmotion(emotion).value;
      && (r.Ok? <==> Speed(m, intensity) != 0.0 && FaceExpressionsPresent(a.tracks))
      && (r.Ok? ==> Modulated(r.value, a, m, intensity))
  {
    match FindEmotion(emotion)
    case None => Ok(a)
    case Some(m) => ApplyModifier(a, m, intensity)
  }

  /** `_adjust_for_character`: the identity in the source. */
  function AdjustForCharacter(a: Animation, characterId: string): (r: Animation)
    ensures r == a
  {
    a
  }

  function Min(a: real, b: real): (m: real)
    ensures m <= a && m <= b && (m == a || m == b)
  {
    if a <= b then a else b
  }

  /** The hair keyframe that follows root keyframe `k`: 0.1 later, capped at
      the duration, with x, y and rotation exaggerated by 1.2. */
  predicate HairFollows(h: Keyframe, k: Keyframe, duration: real) {
    && k.time.Some?
    && h.time == Some(Min(k.time.value + 0.1, duration))
    && ScaledBy(h.x, k.x, 1.2)
    && ScaledBy(h.y, k.y, 1.2)
    && ScaledBy(h.rotation, k.rotation, 1.2)
    && h.expression.None?
  }

  /** Every root keyframe after the first has a time (the source reads
      `kf["time"]` for each of them). */
  predicate LaterTimesPresent(root: seq<Keyframe>) {
    forall j :: 1 <= j < |root| ==> root[j].time.Some?
  }

  /** The hair keyframes derived from the root keyframes: one for every root
      keyframe after the first. */
  function HairKeyframes(root: seq<Keyframe>, duration: real): (r: Result<seq<Keyframe>>)
    ensures r.Ok? <==> LaterTimesPresent(root)
    ensures r.Ok? ==> |r.value| == if |root| <= 1 then 0 else |root| - 1
    ensures r.Ok? ==> forall j :: 0 <= j < |r.value| ==> HairFollows(r.value[j], root[j + 1], duration)
  {
    if !LaterTimesPresent(root) then Err(KeyError("time"))
    else if |root| <= 1 then Ok([])
    else
      Ok(seq(|root| - 1, j requires 0 <= j < |root| - 1 =>
        var k := root[j + 1];
        Keyframe(Some(Min(k.time.value + 0.1, duration)),
                 ScaleField(k.rotation, 1.2), ScaleField(k.x, 1.2), ScaleField(k.y, 1.2), None)))
  }

  const SparkleColor := "#FFFF99"
  const FireColor := "#FF5500"
  const WaterColor := "#66CCFF"

  /** The position of a particle kind in the order the keyword groups are
      checked. */
  function KindRank(kind: string): int {
    if kind == "sparkle" then 0 else if kind == "fire" then 1 else if kind == "water" then 2 else 3
  }

  /** The fixed descriptor of each particle kind. */
  predicate FixedDescriptor(p: Particle) {
    || (p.kind == "sparkle" && p.count == Some(10) && p.color == Some(SparkleColor))
    || (p.kind == "fire" && p.count == Some(20) && p.color == Some(FireColor))
    || (p.kind == "water" && p.count == Some(15) && p.color == Some(WaterColor))
  }

  predicate HasKind(ps: seq<Particle>, kind: string) {
    exists i :: 0 <= i < |ps| && ps[i].kind == kind
  }

  /** The particle descriptors a (not lower-cased) description asks for: the
      three keyword groups are checked independently, case-sensitively, in
      the order sparkle, fire, water. */
  function Particles(description: string, duration: real): (ps: seq<Particle>)
    ensures |ps| <= 3
    ensures HasKind(ps, "sparkle") <==> Contains(description, "sparkle") || Contains(description, "magic")
    ensures HasKind(ps, "fire") <==> Contains(description, "fire")
    ensures HasKind(ps, "water") <==> Contains(description, "water") || Contains(description, "splash")
    ensures forall i :: 0 <= i < |ps| ==> FixedDescriptor(ps[i]) && ps[i].duration == Some(duration)
    ensures forall i, j :: 0 <= i < j < |ps| ==> KindRank(ps[i].kind) < KindRank(ps[j].kind)
  {
    EffectList(
      Contains(description, "sparkle") || Contains(description, "magic"),
      Contains(description, "fire"),
      Contains(description, "water") || Contains(description, "splash"),
      duration)
  }

  /** The descriptors of the keyword groups that matched, in the order
      sparkle, fire, water. */
  function EffectList(sparkle: bool, fire: bool, water: bool, duration: real): (ps: seq<Particle>)
    ensures |ps| <= 3
    ensures HasKind(ps, "sparkle") <==> sparkle
    ensures HasKind(ps, "fire") <==> fire
    ensures HasKind(ps, "water") <==> water
    ensures forall i :: 0 <= i < |ps| ==> FixedDescriptor(ps[i]) && ps[i].duration == Some(duration)
    ensures forall i, j :: 0 <= i < j < |ps| ==> KindRank(ps[i].kind) < KindRank(ps[j].kind)
  {
    var s := if sparkle then [Particle("sparkle", Some(10), Some(duration), Some(SparkleColor))] else [];
    var f := if fire then [Particle("fire", Some(20), Some(duration), Some(FireColor))] else [];
    var w := if water then [Particle("water", Some(15), Some(duration), Some(WaterColor))] else [];
    var ps := s + f + w;
    assert |s| > 0 ==> ps[0].kind == "sparkle";
    assert |f| > 0 ==> ps[|s|].kind == "fire";
    assert |w| > 0 ==> ps[|s| + |f|].kind == "water";
    assert HasKind(ps, "sparkle") ==> |s| > 0;
    assert HasKind(ps, "fire") ==> |f| > 0;
    assert HasKind(ps, "water") ==> |w| > 0;
    ps
  }

  /** The root keyframes of an animation, when it has a root track whose
      derived hair track would be non-empty. */
  predicate DerivesHair(a: Animation) {
    var root := FindTrack(a.tracks, "root");
    root.Some? && |root.value.keyframes| >= 2
  }

  /** `r` is `a` after the physics stage: name and duration kept, the tracks
      unchanged when there is no root track of two or more keyframes, and
      otherwise one hair track appended that trails the root keyframes
      after the first. */
  predicate PhysicsApplied(r: Animation, a: Animation) {
    && r.name == a.name
    && r.duration == a.duration
    && (!DerivesHair(a) ==> r.tracks == a.tracks)
    && (DerivesHair(a) ==>
          var root := FindTrack(a.tracks, "root").value.keyframes;
          && |r.tracks| == |a.tracks| + 1
          && r.tracks[..|a.tracks|] == a.tracks
          && r.tracks[|a.tracks|].bone == "hair"
          && |r.tracks[|a.tracks|].keyframes| == |root| - 1
          && forall j :: 0 <= j < |root| - 1 ==>
               HairFollows(r.tracks[|a.tracks|].keyframes[j], root[j + 1], a.duration))
  }

  /** `_add_physics_and_effects`. An animation that already has a hair
      track is returned unchanged (no particles are added either).
      Otherwise a root track of two or more keyframes yields a hair track
      appended after the existing tracks, and the particle list is set when
      at least one keyword group matches the raw description. */
  function AddPhysicsAndEffects(a: Animation, description: string): (r: Result<Animation>)
    ensures HasTrack(a, "hair") ==> r == Ok(a)
    ensures !HasTrack(a, "hair") ==>
      (r.Ok? <==> !HasTrack(a, "root") || LaterTimesPresent(FindTrack(a.tracks, "root").value.keyframes))
    ensures !HasTrack(a, "hair") && r.Ok? ==>
      r.value.name == a.name && r.value.duration == a.duration
    ensures !HasTrack(a, "hair") && r.Ok? && !DerivesHair(a) ==> r.value.tracks == a.tracks
    ensures !HasTrack(a, "hair") && r.Ok? && DerivesHair(a) ==>
      var root := FindTrack(a.tracks, "root").value.keyframes;
      && |r.value.tracks| == |a.tracks| + 1
      && r.value.tracks[..|a.tracks|] == a.tracks
      && r.value.tracks[|a.tracks|].bone == "hair"
      && |r.value.tracks[|a.tracks|].keyframes| == |root| - 1
      && forall j :: 0 <= j < |root| - 1 ==>
           HairFollows(r.value.tracks[|a.tracks|].keyframes[j], root[j + 1], a.duration)
    ensures !HasTrack(a, "hair") && r.Ok? ==>
      r.value.particles == (if |Particles(description, a.duration)| > 0
                            then Particles(description, a.duration) else a.particles)
  {
    if HasTrack(a, "hair") then Ok(a)
    else
      var hair :- match FindTrack(a.tracks, "root")
        case None => Ok([])
        case Some(root) => HairKeyframes(root.keyframes, a.duration);
      var tracks := if |hair| > 0 then a.tracks + [Track("hair", hair)] else a.tracks;
      var ps := Particles(description, a.duration);
      Ok(a.(tracks := tracks, particles := if |ps| > 0 then ps else a.particles))
  }
}
