/** The generate pipeline and the facts about it that hold for every
    request text. */
module Generation {
  import opened Wrappers
  import opened Strings
  import opened AnimationData
  import opened Interpreter
  import opened Synthesis

  /** With the table modifiers and any intensity the interpreter can
      return, the speed and energy factors stay positive (the extreme is
      "sad" at 2.0: speed 0.4, energy 0.2), and the speed factor is above
      or below 1 exactly as the modifier's speed is. */
  lemma SpeedEnergyPositive(m: Emotion, intensity: real)
    requires m in Emotions && 0.5 <= intensity <= 2.0
    ensures Speed(m, intensity) >= 0.4 && Energy(m, intensity) >= 0.2
    ensures m.speed > 1.0 ==> Speed(m, intensity) > 1.0
    ensures m.speed < 1.0 ==> Speed(m, intensity) < 1.0
  {
    if m.name == "sad" {
      assert m.speed == 0.7 && m.energy == 0.6;
      assert Speed(m, intensity) == 1.0 - 0.3 * intensity;
      assert Energy(m, intensity) == 1.0 - 0.4 * intensity;
    } else {
      assert m.speed > 1.0 && m.energy > 1.0;
      PositiveProduct(m.speed - 1.0, intensity);
      PositiveProduct(m.energy - 1.0, intensity);
    }
  }

  lemma PositiveProduct(a: real, b: real)
    requires a > 0.0 && b > 0.0
    ensures a * b > 0.0
  {
  }

  /** Dividing a positive duration by a factor above 1 shortens it, by a
      positive factor below 1 lengthens it. */
  lemma ScaledDuration(d': real, d: real, s: real)
    requires d > 0.0 && s > 0.0 && d' * s == d
    ensures s > 1.0 ==> d' < d
    ensures s < 1.0 ==> d' > d
  {
    if d' <= 0.0 {
      NonPositiveProduct(d', s);
    }
    if s > 1.0 {
      Shorter(d', d, s);
    } else if s < 1.0 {
      Longer(d', d, s);
    }
  }

  lemma Shorter(d': real, d: real, s: real)
    requires d' > 0.0 && s > 1.0 && d' * s == d
    ensures d' < d
  {
    PositiveProduct(d', s - 1.0);
    assert d' * (s - 1.0) == d' * s - d';
  }

  lemma Longer(d': real, d: real, s: real)
    requires d' > 0.0 && s < 1.0 && d' * s == d
    ensures d' > d
  {
    PositiveProduct(d', 1.0 - s);
    assert d' * (1.0 - s) == d' - d' * s;
  }

  lemma NonPositiveProduct(a: real, b: real)
    requires a <= 0.0 && b > 0.0
    ensures a * b <= 0.0
  {
  }

  lemma ModulatedDuration(b: Animation, a: Animation, m: Emotion, intensity: real)
    requires Modulated(b, a, m, intensity)
    ensures b.duration * Speed(m, intensity) == a.duration
  {
  }

  /** Modulation by a table emotion at an interpreted intensity succeeds
      on an animation whose face keyframes all have expressions, and
      divides the duration by a positive speed factor. */
  lemma TableModulation(a: Animation, m: Emotion, intensity: real)
    requires m in Emotions && 0.5 <= intensity <= 2.0
    requires FaceExpressionsPresent(a.tracks)
    ensures ApplyEmotion(a, m.name, intensity).Ok?
    ensures Modulated(ApplyEmotion(a, m.name, intensity).value, a, m, intensity)
    ensures Speed(m, intensity) > 0.0
  {
    SpeedEnergyPositive(m, intensity);
    EmotionByName(m);
  }

  /** Dividing by a speed factor above 1 shortens a positive duration, by
      a positive factor below 1 lengthens it. */
  lemma ModulatedDurationDirection(b: Animation, a: Animation, m: Emotion, intensity: real)
    requires Modulated(b, a, m, intensity) && a.duration > 0.0 && Speed(m, intensity) > 0.0
    ensures Speed(m, intensity) > 1.0 ==> b.duration < a.duration
    ensures Speed(m, intensity) < 1.0 ==> b.duration > a.duration
  {
    ModulatedDuration(b, a, m, intensity);
    ScaledDuration(b.duration, a.duration, Speed(m, intensity));
  }

  /** A table emotion that speeds motion up shortens a positive duration,
      one that slows it down lengthens it. */
  lemma DurationDirection(a: Animation, m: Emotion, intensity: real)
    requires m in Emotions && 0.5 <= intensity <= 2.0 && a.duration > 0.0
    requires FaceExpressionsPresent(a.tracks)
    ensures ApplyEmotion(a, m.name, intensity).Ok?
    ensures m.speed > 1.0 ==> ApplyEmotion(a, m.name, intensity).value.duration < a.duration
    ensures m.speed < 1.0 ==> ApplyEmotion(a, m.name, intensity).value.duration > a.duration
  {
    TableModulation(a, m, intensity);
    SpeedEnergyPositive(m, intensity);
    var b := ApplyEmotion(a, m.name, intensity).value;
    ModulatedDurationDirection(b, a, m, intensity);
  }

  /** Two track lists with the same names, keyframe counts and keyframe times. */
  predicate SameShape(ts': seq<Track>, ts: seq<Track>) {
    && |ts'| == |ts|
    && (forall i :: 0 <= i < |ts| ==>
          ts'[i].bone == ts[i].bone && |ts'[i].keyframes| == |ts[i].keyframes|)
    && (forall i, j :: 0 <= i < |ts| && 0 <= j < |ts[i].keyframes| ==>
          ts'[i].keyframes[j].time == ts[i].keyframes[j].time)
  }

  /** Two tracks with the same keyframe count and keyframe times. */
  predicate SameKeyframeTimes(t': Track, t: Track) {
    |t'.keyframes| == |t.keyframes| &&
    forall j :: 0 <= j < |t.keyframes| ==> t'.keyframes[j].time == t.keyframes[j].time
  }

  lemma {:induction false} SameShapeFind(ts': seq<Track>, ts: seq<Track>, name: string)
    requires SameShape(ts', ts)
    ensures TrackNames(ts') == TrackNames(ts)
    ensures FindTrack(ts', name).Some? == FindTrack(ts, name).Some?
    ensures FindTrack(ts, name).Some? ==>
      SameKeyframeTimes(FindTrack(ts', name).value, FindTrack(ts, name).value)
    decreases |ts|
  {
    SameShapeNames(ts', ts);
    if |ts| > 0 {
      if ts[0].bone != name {
        SameShapeTail(ts', ts);
        SameShapeFind(ts'[1..], ts[1..], name);
      } else {
        assert SameKeyframeTimes(ts'[0], ts[0]);
      }
    }
  }

  lemma SameShapeNames(ts': seq<Track>, ts: seq<Track>)
    requires SameShape(ts', ts)
    ensures TrackNames(ts') == TrackNames(ts)
  {
  }

  lemma SameShapeTail(ts': seq<Track>, ts: seq<Track>)
    requires SameShape(ts', ts) && |ts| > 0
    ensures SameShape(ts'[1..], ts[1..])
  {
    forall i, j | 0 <= i < |ts[1..]| && 0 <= j < |ts[1..][i].keyframes|
      ensures ts'[1..][i].keyframes[j].time == ts[1..][i].keyframes[j].time
    {
      assert ts'[i + 1].keyframes[j].time == ts[i + 1].keyframes[j].time;
    }
  }

  /** Every template except "wave" has a root track of two or more keyframes. */
  lemma TemplatesDeriveHair(motion: string)
    requires motion in TemplateNames
    ensures DerivesHair(GetTemplate(motion)) <==> motion != "wave"
    ensures HasTrack(GetTemplate(motion), "root") <==> motion != "wave"
  {
    var t := GetTemplate(motion);
    TablesKeys();
    var i :| 0 <= i < |Templates| && Templates[i].0 == motion && t == Templates[i].1;
    if i == 0 {
      assert TrackNames(WaveTemplate.tracks) == ["arm_right", "hand_right", "face"];
    } else {
      RootLed(Templates[i].1);
    }
  }

  /** An animation whose first track is a root track of two or more
      keyframes has a root track and derives a hair track. */
  lemma RootLed(t: Animation)
    requires |t.tracks| > 0 && t.tracks[0].bone == "root" && |t.tracks[0].keyframes| >= 2
    ensures HasTrack(t, "root") && DerivesHair(t)
  {
    assert TrackNames(t.tracks)[0] == "root";
  }

  /** A duration `d` that, multiplied by the emotion's speed factor, gives
      back `base`: `base` divided by the speed factor. */
  predicate DurationScaled(d: real, base: real, m: Emotion, intensity: real) {
    d * Speed(m, intensity) == base
  }

  /** The emotion stage of the pipeline on an interpreted request: the
      stored template for the motion, modulated by the named emotion. It
      never raises, and its duration is the template's divided by the
      emotion's speed factor -- shorter for an emotion that speeds motion
      up, longer for one that slows it down, unchanged without a table
      emotion. */
  function Emoted(req: Request): (e: Animation)
    requires req.motion in TemplateNames && 0.5 <= req.intensity <= 2.0
    ensures e.duration > 0.0 && e.particles == [] && !HasTrack(e, "hair")
    ensures req.emotion !in EmotionNames ==> e == GetTemplate(req.motion)
    ensures req.emotion in EmotionNames ==>
      var m := FindEmotion(req.emotion).value;
      var base := GetTemplate(req.motion).duration;
      && DurationScaled(e.duration, base, m, req.intensity)
      && (m.speed > 1.0 ==> e.duration < base)
      && (m.speed < 1.0 ==> e.duration > base)
    ensures req.emotion in EmotionNames ==>
      Modulated(e, GetTemplate(req.motion), FindEmotion(req.emotion).value, req.intensity)
    ensures DerivesHair(e) <==> req.motion != "wave"
    ensures HasTrack(e, "root") ==> LaterTimesPresent(FindTrack(e.tracks, "root").value.keyframes)
  {
    var template := GetTemplate(req.motion);
    TemplateEmotion(template, req);
    var e := ApplyEmotion(template, req.emotion, req.intensity).value;
    EmotedDuration(e, template, req);
    e
  }

  lemma EmotedDuration(e: Animation, template: Animation, req: Request)
    requires req.motion in TemplateNames && 0.5 <= req.intensity <= 2.0
    requires template == GetTemplate(req.motion)
    requires req.emotion in EmotionNames ==>
      Modulated(e, template, FindEmotion(req.emotion).value, req.intensity)
    ensures req.emotion in EmotionNames ==>
      var m := FindEmotion(req.emotion).value;
      && DurationScaled(e.duration, template.duration, m, req.intensity)
      && (m.speed > 1.0 ==> e.duration < template.duration)
      && (m.speed < 1.0 ==> e.duration > template.duration)
  {
    if req.emotion in EmotionNames {
      var m := FindEmotion(req.emotion).value;
      TableModulation(template, m, req.intensity);
      SpeedEnergyPositive(m, req.intensity);
      ModulatedDuration(e, template, m, req.intensity);
      ModulatedDurationDirection(e, template, m, req.intensity);
    }
  }

  datatype Generated = Generated(request: Request, animation: Animation)

  /** The pure part of `generate_animation`: parse the description, fetch
      the template, apply the emotion, adjust for the character, add
      physics and effects. Neither stage that can raise does so on a stored
      template with an interpreted request, so the pipeline is total: every
      description yields an animation with a positive duration that the
      emotion alone decides, every motion except "wave" gains a hair
      track, and the particle list is the one the raw description asks
      for. */
  function GenerateAnimation(characterId: string, description: string): (g: Generated)
    ensures g.request == ParseDescription(description)
    ensures g.animation.duration == Emoted(g.request).duration
    ensures HasTrack(g.animation, "hair") <==> g.request.motion != "wave"
    ensures g.animation.particles == Particles(description, g.animation.duration)
    ensures PhysicsApplied(g.animation, Emoted(g.request))
  {
    var req := ParseDescription(description);
    var emoted := Emoted(req);
    var adjusted := AdjustForCharacter(emoted, characterId);
    PhysicsHair(adjusted, description);
    var animated := AddPhysicsAndEffects(adjusted, description).value;
    Generated(req, animated)
  }

  /** On an animation without a hair track whose root keyframes all have a
      later time, the physics stage succeeds, keeps the duration, and ends
      with a hair track exactly when it derives one. */
  lemma PhysicsHair(a: Animation, description: string)
    requires !HasTrack(a, "hair")
    requires HasTrack(a, "root") ==> LaterTimesPresent(FindTrack(a.tracks, "root").value.keyframes)
    ensures AddPhysicsAndEffects(a, description).Ok?
    ensures var r := AddPhysicsAndEffects(a, description).value;
      && r.duration == a.duration
      && r.particles == (if |Particles(description, a.duration)| > 0 then Particles(description, a.duration) else a.particles)
      && (HasTrack(r, "hair") <==> DerivesHair(a))
      && PhysicsApplied(r, a)
  {
    var r := AddPhysicsAndEffects(a, description).value;
    if DerivesHair(a) {
      assert TrackNames(r.tracks)[|a.tracks|] == "hair";
    } else {
      assert r.tracks == a.tracks;
    }
  }

  lemma ModulatedPositive(b: Animation, a: Animation, m: Emotion, intensity: real)
    requires Modulated(b, a, m, intensity) && a.duration > 0.0 && Speed(m, intensity) > 0.0
    ensures b.duration > 0.0
  {
    ModulatedDuration(b, a, m, intensity);
    PositiveFactor(b.duration, a.duration, Speed(m, intensity));
  }

  /** Modulation keeps track names, keyframe counts and keyframe times. */
  lemma ModulatedShape(b: Animation, a: Animation, m: Emotion, intensity: real)
    requires Modulated(b, a, m, intensity)
    ensures SameShape(b.tracks, a.tracks) && b.particles == a.particles
  {
    forall i, j | 0 <= i < |a.tracks| && 0 <= j < |a.tracks[i].keyframes|
      ensures b.tracks[i].keyframes[j].time == a.tracks[i].keyframes[j].time
    {
      assert KeyframeModulated(b.tracks[i].keyframes[j], a.tracks[i].keyframes[j],
        a.tracks[i].bone == "face", m.baseExpression, Energy(m, intensity));
    }
  }

  lemma PositiveFactor(d': real, d: real, s: real)
    requires d > 0.0 && s > 0.0 && d' * s == d
    ensures d' > 0.0
  {
    if d' <= 0.0 {
      NonPositiveProduct(d', s);
    }
  }

  /** What the pipeline relies on in a well-formed template. */
  lemma WellFormedFacts(t: Animation)
    requires WellFormedTemplate(t)
    ensures FaceExpressionsPresent(t.tracks)
    ensures !HasTrack(t, "hair")
    ensures HasTrack(t, "root") ==> LaterTimesPresent(FindTrack(t.tracks, "root").value.keyframes)
  {
    var ts := t.tracks;
    forall i, j | 0 <= i < |ts| && ts[i].bone == "face" && 0 <= j < |ts[i].keyframes|
      ensures ts[i].keyframes[j].expression.Some?
    {
      assert WellFormedTrack(ts[i]);
    }
    forall i | 0 <= i < |ts|
      ensures TrackNames(ts)[i] != "hair"
    {
    }
    if HasTrack(t, "root") {
      var root := FindTrack(ts, "root").value;
      var k :| 0 <= k < |ts| && ts[k] == root;
      assert WellFormedTrack(ts[k]);
    }
  }

  /** Two animations whose tracks have the same shape agree on the facts the
      physics stage reads: which tracks exist and the root keyframe times. */
  lemma ShapeTransfer(b: Animation, a: Animation)
    requires SameShape(b.tracks, a.tracks)
    ensures HasTrack(b, "hair") == HasTrack(a, "hair")
    ensures HasTrack(b, "root") == HasTrack(a, "root")
    ensures DerivesHair(b) == DerivesHair(a)
    ensures HasTrack(a, "root") ==>
      LaterTimesPresent(FindTrack(b.tracks, "root").value.keyframes) ==
      LaterTimesPresent(FindTrack(a.tracks, "root").value.keyframes)
  {
    SameShapeFind(b.tracks, a.tracks, "hair");
    SameShapeFind(b.tracks, a.tracks, "root");

  }

  /** Emotion modulation of a stored template with an interpreted request
      always succeeds, keeps the duration positive and keeps the
      template's track names, keyframe counts and times. */
  lemma TemplateEmotion(template: Animation, req: Request)
    requires WellFormedTemplate(template) && 0.5 <= req.intensity <= 2.0
    requires req.motion in TemplateNames && template == GetTemplate(req.motion)
    ensures var r := ApplyEmotion(template, req.emotion, req.intensity);
      r.Ok? && r.value.duration > 0.0 && r.value.particles == []
    ensures var r := ApplyEmotion(template, req.emotion, req.intensity);
      req.emotion in EmotionNames ==> Modulated(r.value, template, FindEmotion(req.emotion).value, req.intensity)
    ensures var r := ApplyEmotion(template, req.emotion, req.intensity);
      req.emotion !in EmotionNames ==> r.value == template
    ensures var r := ApplyEmotion(template, req.emotion, req.intensity);
      && !HasTrack(r.value, "hair")
      && (DerivesHair(r.value) <==> req.motion != "wave")
      && (HasTrack(r.value, "root") ==> LaterTimesPresent(FindTrack(r.value.tracks, "root").value.keyframes))
  {
    WellFormedFacts(template);
    var r := ApplyEmotion(template, req.emotion, req.intensity);
    if req.emotion in EmotionNames {
      var m := FindEmotion(req.emotion).value;
      TableModulation(template, m, req.intensity);
      ModulatedPositive(r.value, template, m, req.intensity);
      ModulatedShape(r.value, template, m, req.intensity);
    }
    ShapeTransfer(r.value, template);
    TemplatesDeriveHair(req.motion);
  }
}
