/** The description interpreter: free text to a motion name, an emotion
    name and an intensity, by first-hit substring search over the ordered
    tables (src/animation_generator.py `_parse_description`). */
module Interpreter {
  import opened Wrappers
  import opened Strings
  import opened AnimationData
  import AssocList

  datatype Request = Request(motion: string, emotion: string, intensity: real)

  /** `w` is the first word of `words`, in table order, occurring in `text`. */
  predicate FirstOccurring(words: seq<string>, text: string, w: string) {
    exists i :: 0 <= i < |words| && words[i] == w && Contains(text, w) &&
      forall j :: 0 <= j < i ==> !Contains(text, words[j])
  }

  /** No word of `words` occurs in `text`. */
  predicate NoneOccurs(words: seq<string>, text: string) {
    forall j :: 0 <= j < |words| ==> !Contains(text, words[j])
  }

  /** The index of the first word of `words` that occurs in `text`: the
      `for ... if word in text: ... break` loop of the source. */
  function FirstHit(words: seq<string>, text: string): (r: Option<nat>)
    ensures r.None? <==> NoneOccurs(words, text)
    ensures r.Some? ==> r.value < |words| && Contains(text, words[r.value])
    ensures r.Some? ==> forall j :: 0 <= j < r.value ==> !Contains(text, words[j])
  {
    if |words| == 0 then None
    else if Contains(text, words[0]) then Some(0)
    else
      match FirstHit(words[1..], text)
      case None => None
      case Some(i) => Some(i + 1)
  }

  /** Interprets a request text. Motion and emotion names are matched
      against the lower-cased text, in table order, first hit wins;
      defaults are "idle", "neutral" and 1.0. */
  function ParseDescription(description: string): (r: Request)
    ensures FirstOccurring(TemplateNames, Lower(description), r.motion) ||
            (NoneOccurs(TemplateNames, Lower(description)) && r.motion == "idle")
    ensures FirstOccurring(EmotionNames, Lower(description), r.emotion) ||
            (NoneOccurs(EmotionNames, Lower(description)) && r.emotion == "neutral")
    ensures (exists i :: 0 <= i < |IntensityWords| && FirstOccurring(AssocList.Keys(IntensityWords), Lower(description), IntensityWords[i].0) && r.intensity == IntensityWords[i].1) ||
            (NoneOccurs(AssocList.Keys(IntensityWords), Lower(description)) && r.intensity == 1.0)
    ensures r.motion in TemplateNames
    ensures r.emotion == "neutral" || r.emotion in EmotionNames
    ensures 0.5 <= r.intensity <= 2.0
  {
    var text := Lower(description);
    Request(MotionIn(text), EmotionIn(text), IntensityIn(text))
  }

  /** The first template name occurring in `text`, else "idle". */
  function MotionIn(text: string): (motion: string)
    ensures FirstOccurring(TemplateNames, text, motion) ||
            (NoneOccurs(TemplateNames, text) && motion == "idle")
    ensures motion in TemplateNames
  {
    match FirstHit(TemplateNames, text)
    case Some(i) => TemplateNames[i]
    case None => "idle"
  }

  /** The first emotion name occurring in `text`, else "neutral". */
  function EmotionIn(text: string): (emotion: string)
    ensures FirstOccurring(EmotionNames, text, emotion) ||
            (NoneOccurs(EmotionNames, text) && emotion == "neutral")
    ensures emotion == "neutral" || emotion in EmotionNames
  {
    match FirstHit(EmotionNames, text)
    case Some(i) => EmotionNames[i]
    case None => "neutral"
  }

  /** The factor of the first intensity word occurring in `text`, else 1.0. */
  function IntensityIn(text: string): (intensity: real)
    ensures (exists i :: 0 <= i < |IntensityWords| && FirstOccurring(AssocList.Keys(IntensityWords), text, IntensityWords[i].0) && intensity == IntensityWords[i].1) ||
            (NoneOccurs(AssocList.Keys(IntensityWords), text) && intensity == 1.0)
    ensures 0.5 <= intensity <= 2.0
  {
    var words := AssocList.Keys(IntensityWords);
    match FirstHit(words, text)
    case Some(i) =>
      assert FirstOccurring(words, text, IntensityWords[i].0);
      IntensityWords[i].1
    case None => 1.0
  }
}
