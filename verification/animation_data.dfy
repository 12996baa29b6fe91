/** The animation records the generator produces and the exporter consumes,
    and the two fixed tables of the generator: the motion templates and the
    emotion modifiers, both kept in their definition order. */
module AnimationData {
  import opened Wrappers
  import AssocList

  /** One keyframe: a time and the optional fields a template may carry. */
  datatype Keyframe = Keyframe(
    time: Option<real>,
    rotation: Option<real>,
    x: Option<real>,
    y: Option<real>,
    expression: Option<string>)

  /** A named keyframe track, one entry of the `keyframes` dictionary. */
  datatype Track = Track(bone: string, keyframes: seq<Keyframe>)

  /** A particle-effect descriptor. The generator fills every field; the
      exporter supplies defaults for the optional ones. */
  datatype Particle = Particle(kind: string, count: Option<int>, duration: Option<real>, color: Option<string>)

  /** An animation: its display name, duration, tracks in dictionary order
      and particle list (empty when the `particles` key is absent). */
  datatype Animation = Animation(name: string, duration: real, tracks: seq<Track>, particles: seq<Particle>)

  /** An emotion modifier: the face entry and the movement entry flattened. */
  datatype Emotion = Emotion(
    name: string,
    baseExpression: string,
    blinkRate: real,
    speed: real,
    bounce: real,
    energy: real)

  function TrackNames(ts: seq<Track>): (names: seq<string>)
    ensures |names| == |ts|
    ensures forall i :: 0 <= i < |ts| ==> names[i] == ts[i].bone
  {
    seq(|ts|, i requires 0 <= i < |ts| => ts[i].bone)
  }

  /** `name in animation["keyframes"]`. */
  predicate HasTrack(a: Animation, name: string) {
    name in TrackNames(a.tracks)
  }

  /** `animation["keyframes"][name]`, the first track with that name. */
  function FindTrack(ts: seq<Track>, name: string): (r: Option<Track>)
    ensures r.None? <==> name !in TrackNames(ts)
    ensures r.Some? ==> r.value in ts && r.value.bone == name
  {
    if |ts| == 0 then None
    else if ts[0].bone == name then Some(ts[0])
    else
      assert TrackNames(ts) == [ts[0].bone] + TrackNames(ts[1..]);
      FindTrack(ts[1..], name)
  }

  // Keyframe constructors for the template table.
  function Rot(t: real, r: real): Keyframe {
    Keyframe(Some(t), Some(r), None, None, None)
  }

  function PosX(t: real, x: real): Keyframe {
    Keyframe(Some(t), None, Some(x), None, None)
  }

  function PosY(t: real, y: real): Keyframe {
    Keyframe(Some(t), None, None, Some(y), None)
  }

  function PosXY(t: real, x: real, y: real): Keyframe {
    Keyframe(Some(t), None, Some(x), Some(y), None)
  }

  function RotXY(t: real, r: real, x: real, y: real): Keyframe {
    Keyframe(Some(t), Some(r), Some(x), Some(y), None)
  }

  function Face(t: real, e: string): Keyframe {
    Keyframe(Some(t), None, None, None, Some(e))
  }

  const WaveTemplate := Animation("Wave", 2.0, [
    Track("arm_right", [RotXY(0.0, 0.0, 0.0, 0.0), RotXY(0.5, 45.0, 10.0, -20.0), RotXY(1.0, -15.0, 15.0, -15.0),
                        RotXY(1.5, 45.0, 10.0, -20.0), RotXY(2.0, 0.0, 0.0, 0.0)]),
    Track("hand_right", [Rot(0.0, 0.0), Rot(0.5, 15.0), Rot(1.0, -10.0), Rot(1.5, 15.0), Rot(2.0, 0.0)]),
    Track("face", [Face(0.0, "neutral"), Face(2.0, "neutral")])
  ], [])

  const JumpTemplate := Animation("Jump", 1.5, [
    Track("root", [PosY(0.0, 0.0), PosY(0.7, 100.0), PosY(1.5, 0.0)]),
    Track("leg_left", [Rot(0.0, 0.0), Rot(0.3, -15.0), Rot(0.7, 10.0), Rot(1.2, -20.0), Rot(1.5, 0.0)]),
    Track("leg_right", [Rot(0.0, 0.0), Rot(0.3, -15.0), Rot(0.7, 10.0), Rot(1.2, -20.0), Rot(1.5, 0.0)]),
    Track("face", [Face(0.0, "neutral"), Face(0.7, "excited"), Face(1.5, "neutral")])
  ], [])

  const WalkTemplate := Animation("Walk", 1.2, [
    Track("root", [PosX(0.0, 0.0), PosX(1.2, 50.0)]),
    Track("leg_left", [Rot(0.0, 0.0), Rot(0.3, 20.0), Rot(0.6, 0.0), Rot(0.9, -20.0), Rot(1.2, 0.0)]),
    Track("leg_right", [Rot(0.0, -20.0), Rot(0.3, 0.0), Rot(0.6, 20.0), Rot(0.9, 0.0), Rot(1.2, -20.0)]),
    Track("arm_left", [Rot(0.0, -10.0), Rot(0.6, 10.0), Rot(1.2, -10.0)]),
    Track("arm_right", [Rot(0.0, 10.0), Rot(0.6, -10.0), Rot(1.2, 10.0)]),
    Track("face", [Face(0.0, "neutral"), Face(1.2, "neutral")])
  ], [])

  const RunTemplate := Animation("Run", 0.8, [
    Track("root", [PosXY(0.0, 0.0, 0.0), PosXY(0.2, 15.0, 10.0), PosXY(0.4, 30.0, 0.0),
                   PosXY(0.6, 45.0, 10.0), PosXY(0.8, 60.0, 0.0)]),
    Track("leg_left", [Rot(0.0, -30.0), Rot(0.2, 0.0), Rot(0.4, 30.0), Rot(0.6, 0.0), Rot(0.8, -30.0)]),
    Track("leg_right", [Rot(0.0, 30.0), Rot(0.2, 0.0), Rot(0.4, -30.0), Rot(0.6, 0.0), Rot(0.8, 30.0)]),
    Track("arm_left", [Rot(0.0, 30.0), Rot(0.4, -30.0), Rot(0.8, 30.0)]),
    Track("arm_right", [Rot(0.0, -30.0), Rot(0.4, 30.0), Rot(0.8, -30.0)]),
    Track("face", [Face(0.0, "determined"), Face(0.8, "determined")])
  ], [])

  const IdleTemplate := Animation("Idle", 4.0, [
    Track("root", [PosY(0.0, 0.0), PosY(2.0, -3.0), PosY(4.0, 0.0)]),
    Track("body", [Rot(0.0, 0.0), Rot(2.0, 2.0), Rot(4.0, 0.0)]),
    Track("head", [Rot(0.0, 0.0), Rot(1.0, -1.0), Rot(3.0, 1.0), Rot(4.0, 0.0)]),
    Track("face", [Face(0.0, "neutral"), Face(1.5, "blink"), Face(1.7, "neutral"), Face(4.0, "neutral")])
  ], [])

  /** The template table in definition order. */
  const Templates: seq<(string, Animation)> := [
    ("wave", WaveTemplate),
    ("jump", JumpTemplate),
    ("walk", WalkTemplate),
    ("run", RunTemplate),
    ("idle", IdleTemplate)
  ]

  const TemplateNames: seq<string> := ["wave", "jump", "walk", "run", "idle"]

  /** The emotion table in definition order. */
  const Emotions: seq<Emotion> := [
    Emotion("happy", "happy", 0.3, 1.2, 1.3, 1.3),
    Emotion("sad", "sad", 0.1, 0.7, 0.5, 0.6),
    Emotion("angry", "angry", 0.1, 1.3, 0.8, 1.5),
    Emotion("scared", "scared", 0.4, 1.4, 0.7, 1.1),
    Emotion("excited", "excited", 0.2, 1.5, 1.5, 1.8)
  ]

  const EmotionNames: seq<string> := ["happy", "sad", "angry", "scared", "excited"]

  /** The intensity words in the order they are tried. */
  const IntensityWords: seq<(string, real)> := [
    ("very", 1.5),
    ("extremely", 2.0),
    ("slightly", 0.7),
    ("barely", 0.5),
    ("incredibly", 2.0),
    ("super", 1.8),
    ("little", 0.6)
  ]

  const IntensityNames: seq<string> := ["very", "extremely", "slightly", "barely", "incredibly", "super", "little"]

  /** Every keyframe of the track has a time and, in a face track, an
      expression: the keys the generator reads without a default. */
  predicate WellFormedTrack(t: Track) {
    forall i :: 0 <= i < |t.keyframes| ==>
      t.keyframes[i].time.Some? && (t.bone == "face" ==> t.keyframes[i].expression.Some?)
  }

  /** A structural property every stored template has: every track is well
      formed, there is no hair track or particle list, and the duration is
      positive. The synthesis pipeline relies on it. */
  predicate WellFormedTemplate(a: Animation) {
    && a.duration > 0.0
    && a.particles == []
    && (forall i :: 0 <= i < |a.tracks| ==> a.tracks[i].bone != "hair" && WellFormedTrack(a.tracks[i]))
  }

  function EmotionKeys(es: seq<Emotion>): (names: seq<string>)
    ensures |names| == |es|
    ensures forall i :: 0 <= i < |es| ==> names[i] == es[i].name
  {
    seq(|es|, i requires 0 <= i < |es| => es[i].name)
  }

  /** `self.emotions.get(name)`. */
  function FindEmotion(name: string): (r: Option<Emotion>)
    ensures r.None? <==> name !in EmotionNames
    ensures r.Some? ==> r.value in Emotions && r.value.name == name
  {
    TablesKeys();
    FindEmotionIn(Emotions, name)
  }

  function FindEmotionIn(es: seq<Emotion>, name: string): (r: Option<Emotion>)
    ensures r.None? <==> name !in EmotionKeys(es)
    ensures r.Some? ==> r.value in es && r.value.name == name
  {
    if |es| == 0 then None
    else if es[0].name == name then Some(es[0])
    else
      assert EmotionKeys(es) == [es[0].name] + EmotionKeys(es[1..]);
      FindEmotionIn(es[1..], name)
  }

  /** The emotion table has no two entries with the same name. */
  lemma EmotionByName(m: Emotion)
    requires m in Emotions
    ensures FindEmotion(m.name) == Some(m)
  {
    if m == Emotions[0] {
    } else if m == Emotions[1] {
    } else if m == Emotions[2] {
    } else if m == Emotions[3] {
    } else {
      assert m == Emotions[4];
    }
  }

  /** The name lists are the keys of the tables, in the same order. */
  lemma TablesKeys()
    ensures AssocList.Keys(Templates) == TemplateNames
    ensures EmotionKeys(Emotions) == EmotionNames
  {
  }

  lemma IntensityKeys()
    ensures AssocList.Keys(IntensityWords) == IntensityNames
  {
  }

  lemma TemplatesWellFormed()
    ensures forall i :: 0 <= i < |Templates| ==> WellFormedTemplate(Templates[i].1)
  {
    WaveWellFormed();
    JumpWellFormed();
    WalkWellFormed();
    RunWellFormed();
    IdleWellFormed();
  }

  lemma WaveWellFormed()
    ensures WellFormedTemplate(WaveTemplate)
  {
    var ts := WaveTemplate.tracks;
    assert WellFormedTrack(ts[0]) && WellFormedTrack(ts[1]) && WellFormedTrack(ts[2]);
  }

  lemma JumpWellFormed()
    ensures WellFormedTemplate(JumpTemplate)
  {
    var ts := JumpTemplate.tracks;
    assert WellFormedTrack(ts[0]) && WellFormedTrack(ts[1]) && WellFormedTrack(ts[2]) && WellFormedTrack(ts[3]);
  }

  lemma WalkWellFormed()
    ensures WellFormedTemplate(WalkTemplate)
  {
    var ts := WalkTemplate.tracks;
    assert WellFormedTrack(ts[0]) && WellFormedTrack(ts[1]) && WellFormedTrack(ts[2]);
    assert WellFormedTrack(ts[3]) && WellFormedTrack(ts[4]) && WellFormedTrack(ts[5]);
  }

  lemma RunWellFormed()
    ensures WellFormedTemplate(RunTemplate)
  {
    var ts := RunTemplate.tracks;
    assert WellFormedTrack(ts[0]) && WellFormedTrack(ts[1]) && WellFormedTrack(ts[2]);
    assert WellFormedTrack(ts[3]) && WellFormedTrack(ts[4]) && WellFormedTrack(ts[5]);
  }

  lemma IdleWellFormed()
    ensures WellFormedTemplate(IdleTemplate)
  {
    var ts := IdleTemplate.tracks;
    assert WellFormedTrack(ts[0]) && WellFormedTrack(ts[1]) && WellFormedTrack(ts[2]) && WellFormedTrack(ts[3]);
  }
}
