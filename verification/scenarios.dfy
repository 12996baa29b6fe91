/** A worked request: what the interpreter and the pipeline make of the
    text "happy waving". Motion names are matched as substrings, so
    "waving" does not select the wave template. */
module Scenarios {
  import opened Wrappers
  import opened Strings
  import opened AnimationData
  import opened Interpreter
  import opened Synthesis
  import opened Generation

  lemma DemoIsLowerCase()
    ensures Lower("happy waving") == "happy waving"
  {
    LowerIdentity("happy waving");
  }

  lemma DemoLacksWave()
    ensures !Contains("happy waving", "wave")
  {
    MissingChar("happy waving", "wave", 3);
  }

  lemma DemoLacksJump()
    ensures !Contains("happy waving", "jump")
  {
    MissingChar("happy waving", "jump", 0);
  }

  lemma DemoLacksWalk()
    ensures !Contains("happy waving", "walk")
  {
    MissingChar("happy waving", "walk", 2);
  }

  lemma DemoLacksRun()
    ensures !Contains("happy waving", "run")
  {
    MissingChar("happy waving", "run", 0);
  }

  lemma DemoLacksIdle()
    ensures !Contains("happy waving", "idle")
  {
    MissingChar("happy waving", "idle", 1);
  }

  lemma DemoLacksVery()
    ensures !Contains("happy waving", "very")
  {
    MissingChar("happy waving", "very", 1);
  }

  lemma DemoLacksExtremely()
    ensures !Contains("happy waving", "extremely")
  {
    MissingChar("happy waving", "extremely", 1);
  }

  lemma DemoLacksSlightly()
    ensures !Contains("happy waving", "slightly")
  {
    MissingChar("happy waving", "slightly", 0);
  }

  lemma DemoLacksBarely()
    ensures !Contains("happy waving", "barely")
  {
    MissingChar("happy waving", "barely", 0);
  }

  lemma DemoLacksIncredibly()
    ensures !Contains("happy waving", "incredibly")
  {
    MissingChar("happy waving", "incredibly", 2);
  }

  lemma DemoLacksSuper()
    ensures !Contains("happy waving", "super")
  {
    MissingChar("happy waving", "super", 0);
  }

  lemma DemoLacksLittle()
    ensures !Contains("happy waving", "little")
  {
    MissingChar("happy waving", "little", 0);
  }

  lemma DemoLacksSparkle()
    ensures !Contains("happy waving", "sparkle")
  {
    MissingChar("happy waving", "sparkle", 0);
  }

  lemma DemoLacksMagic()
    ensures !Contains("happy waving", "magic")
  {
    MissingChar("happy waving", "magic", 0);
  }

  lemma DemoLacksFire()
    ensures !Contains("happy waving", "fire")
  {
    MissingChar("happy waving", "fire", 0);
  }

  lemma DemoLacksWater()
    ensures !Contains("happy waving", "water")
  {
    MissingChar("happy waving", "water", 4);
  }

  lemma DemoLacksSplash()
    ensures !Contains("happy waving", "splash")
  {
    MissingChar("happy waving", "splash", 0);
  }

  /** No motion name occurs in the demo text: "waving" does not contain
      "wave". */
  lemma DemoNamesNoMotion()
    ensures NoneOccurs(TemplateNames, "happy waving")
  {
    DemoLacksWave();
    DemoLacksJump();
    DemoLacksWalk();
    DemoLacksRun();
    DemoLacksIdle();
  }

  /** No intensity word occurs in the demo text. */
  lemma DemoNamesNoIntensity()
    ensures NoneOccurs(IntensityNames, "happy waving")
  {
    DemoLacksVery();
    DemoLacksExtremely();
    DemoLacksSlightly();
    DemoLacksBarely();
    DemoLacksIncredibly();
    DemoLacksSuper();
    DemoLacksLittle();
  }

  /** The demo text is read as an idle motion, happy, at intensity 1.0. */
  lemma DemoRequest()
    ensures ParseDescription("happy waving") == Request("idle", "happy", 1.0)
  {
    DemoIsLowerCase();
    DemoNamesNoMotion();
    DemoNamesNoIntensity();
    TablesKeys();
    IntensityKeys();
    assert "happy waving"[0..5] == "happy";
    ContainsSlice("happy waving", 0, 5);
  }

  /** The demo text asks for no particle effect. */
  lemma DemoParticles(duration: real)
    ensures Particles("happy waving", duration) == []
  {
    DemoLacksSparkle();
    DemoLacksMagic();
    DemoLacksFire();
    DemoLacksWater();
    DemoLacksSplash();
  }

  /** Happy at intensity 1.0 plays the 4-second idle template 1.2 times
      faster. */
  lemma DemoDuration()
    ensures Emoted(Request("idle", "happy", 1.0)).duration == 10.0 / 3.0
  {
    var m := FindEmotion("happy").value;
    assert m == Emotions[0];
    assert GetTemplate("idle") == IdleTemplate;
    assert DurationScaled(Emoted(Request("idle", "happy", 1.0)).duration, 4.0, m, 1.0);
  }

  /** The whole pipeline on the demo text, for any character: the idle
      template played at happy speed (4 seconds divided by 1.2), a hair
      track derived from the root bob, and no particle effect. */
  lemma DemoAnimation(characterId: string)
    ensures var g := GenerateAnimation(characterId, "happy waving");
      && g.request == Request("idle", "happy", 1.0)
      && g.animation.duration == 10.0 / 3.0
      && HasTrack(g.animation, "hair")
      && g.animation.particles == []
  {
    DemoRequest();
    DemoDuration();
    DemoParticles(10.0 / 3.0);
  }

  /** Happy at intensity 1.0 modulates the idle template. */
  lemma DemoModulated()
    ensures Modulated(Emoted(Request("idle", "happy", 1.0)), IdleTemplate, Emotions[0], 1.0)
  {
    assert FindEmotion("happy").value == Emotions[0];
    assert GetTemplate("idle") == IdleTemplate;
  }

  /** Happy at intensity 1.0 scales the idle root bob by the energy factor
      1.3 and keeps its times. */
  lemma HappyIdleRoot(e: Animation)
    requires Modulated(e, IdleTemplate, Emotions[0], 1.0)
    ensures |e.tracks| == 4
    ensures FindTrack(e.tracks, "root") == Some(Track("root", [PosY(0.0, 0.0), PosY(2.0, -3.9), PosY(4.0, 0.0)]))
  {
    var root := e.tracks[0].keyframes;
    assert |root| == 3;
    assert KeyframeModulated(root[0], PosY(0.0, 0.0), false, "happy", 1.3);
    assert KeyframeModulated(root[1], PosY(2.0, -3.0), false, "happy", 1.3);
    assert KeyframeModulated(root[2], PosY(4.0, 0.0), false, "happy", 1.3);
    assert root == [PosY(0.0, 0.0), PosY(2.0, -3.9), PosY(4.0, 0.0)];
  }

  /** The physics stage on an animation of four tracks whose root bobs once
      in 10/3 seconds. */
  lemma HairOfRootBob(a: Animation, e: Animation)
    requires PhysicsApplied(a, e) && e.duration == 10.0 / 3.0 && |e.tracks| == 4
    requires FindTrack(e.tracks, "root") == Some(Track("root", [PosY(0.0, 0.0), PosY(2.0, -3.9), PosY(4.0, 0.0)]))
    ensures |a.tracks| == 5
    ensures a.tracks[4].bone == "hair"
    ensures a.tracks[4].keyframes == [PosY(2.1, -4.68), PosY(10.0 / 3.0, 0.0)]
  {
    assert DerivesHair(e);
    var hair := a.tracks[4].keyframes;
    HairFollowsPosY(hair[0], 2.0, -3.9, 10.0 / 3.0);
    HairFollowsPosY(hair[1], 4.0, 0.0, 10.0 / 3.0);
    assert hair == [hair[0], hair[1]];
  }

  /** A hair keyframe trailing a keyframe that only moves along y. */
  lemma HairFollowsPosY(h: Keyframe, t: real, y: real, duration: real)
    requires HairFollows(h, PosY(t, y), duration)
    ensures h == PosY(Min(t + 0.1, duration), y * 1.2)
  {
  }

  /** The demo's hair track, for any character: appended after the four idle
      tracks, it trails the two later root keyframes by 0.1 seconds, the
      last one cut at the animation's end, and swings 1.2 times the happy
      root bob. */
  lemma DemoHair(characterId: string)
    ensures var a := GenerateAnimation(characterId, "happy waving").animation;
      && |a.tracks| == 5
      && a.tracks[4].bone == "hair"
      && a.tracks[4].keyframes == [PosY(2.1, -4.68), PosY(10.0 / 3.0, 0.0)]
  {
    DemoRequest();
    DemoDuration();
    DemoModulated();
    var e := Emoted(Request("idle", "happy", 1.0));
    HappyIdleRoot(e);
    HairOfRootBob(GenerateAnimation(characterId, "happy waving").animation, e);
  }
}
