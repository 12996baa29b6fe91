/** Character structure analysis (`_analyze_character_structure`): which
    flattened layer plays which body part, by synonym search in the
    lower-cased layer name, and the fixed part hierarchy. */
module Structure {
  import opened Wrappers
  import opened Strings
  import opened Layers
  import AssocList

  /** The part taxonomy with each part's synonyms, in table order. */
  const BodyParts: seq<(string, seq<string>)> := [
    ("head", ["head", "face", "hair"]),
    ("body", ["body", "torso", "chest"]),
    ("arm_right", ["arm_right", "right_arm", "rightarm"]),
    ("arm_left", ["arm_left", "left_arm", "leftarm"]),
    ("hand_right", ["hand_right", "right_hand", "righthand"]),
    ("hand_left", ["hand_left", "left_hand", "lefthand"]),
    ("leg_right", ["leg_right", "right_leg", "rightleg"]),
    ("leg_left", ["leg_left", "left_leg", "leftleg"]),
    ("foot_right", ["foot_right", "right_foot", "rightfoot"]),
    ("foot_left", ["foot_left", "left_foot", "leftfoot"])
  ]

  const PartNames: seq<string> := ["head", "body", "arm_right", "arm_left", "hand_right",
    "hand_left", "leg_right", "leg_left", "foot_right", "foot_left"]

  /** Parent part to child parts, in table order. */
  const Hierarchy: seq<(string, seq<string>)> := [
    ("root", ["body"]),
    ("body", ["head", "arm_left", "arm_right", "leg_left", "leg_right"]),
    ("arm_left", ["hand_left"]),
    ("arm_right", ["hand_right"]),
    ("leg_left", ["foot_left"]),
    ("leg_right", ["foot_right"])
  ]

  /** The inferred rig: the matched layer of each detected part, in the
      order the parts were first detected, and the part hierarchy. */
  datatype RigData = RigData(parts: seq<(string, Layer)>, hierarchy: seq<(string, seq<string>)>)

  /** Some synonym of `syns` is a substring of `text`. */
  function AnyOccurs(syns: seq<string>, text: string): (b: bool)
    ensures b <==> exists j :: 0 <= j < |syns| && Contains(text, syns[j])
  {
    if |syns| == 0 then false
    else Contains(text, syns[0]) || AnyOccurs(syns[1..], text)
  }

  /** Entry `i` is the first entry of `table` with a synonym in `text`. */
  predicate FirstPartAt(table: seq<(string, seq<string>)>, text: string, i: int) {
    0 <= i < |table| && AnyOccurs(table[i].1, text) &&
      forall j :: 0 <= j < i ==> !AnyOccurs(table[j].1, text)
  }

  /** The key of the first entry of `table` with a synonym in `text`. */
  function PartIn(table: seq<(string, seq<string>)>, text: string): (r: Option<string>)
    ensures r.None? <==> forall i :: 0 <= i < |table| ==> !AnyOccurs(table[i].1, text)
    ensures r.Some? ==> exists i :: FirstPartAt(table, text, i) && table[i].0 == r.value
  {
    if |table| == 0 then None
    else if AnyOccurs(table[0].1, text) then
      assert FirstPartAt(table, text, 0);
      Some(table[0].0)
    else
      var r := PartIn(table[1..], text);
      if r.Some? then
        var i :| FirstPartAt(table[1..], text, i) && table[1..][i].0 == r.value;
        assert FirstPartAt(table, text, i + 1);
        r
      else r
  }

  /** The part a layer name plays: the first part, in table order, with a
      synonym occurring in the lower-cased name. */
  function MatchPart(name: string): (r: Option<string>)
    ensures r.Some? ==> r.value in PartNames
    ensures r.Some? ==> exists i :: FirstPartAt(BodyParts, Lower(name), i) && BodyParts[i].0 == r.value
    ensures r.None? <==> forall i :: 0 <= i < |BodyParts| ==> !AnyOccurs(BodyParts[i].1, Lower(name))
  {
    assert AssocList.Keys(BodyParts) == PartNames;
    PartIn(BodyParts, Lower(name))
  }

  /** The part each layer plays, position by position. */
  function Roles(ls: seq<Layer>): (roles: seq<Option<string>>)
    ensures |roles| == |ls|
    ensures forall i :: 0 <= i < |ls| ==> roles[i] == MatchPart(ls[i].name)
  {
    seq(|ls|, i requires 0 <= i < |ls| => MatchPart(ls[i].name))
  }

  /** Position `i` is the last position of `roles` holding part `k`. */
  predicate LastPlaying(roles: seq<Option<string>>, k: string, i: int) {
    0 <= i < |roles| && roles[i] == Some(k) &&
      forall j :: i < j < |roles| ==> roles[j] != Some(k)
  }

  /** Some position of `roles` holds part `k`. */
  predicate Plays(roles: seq<Option<string>>, k: string) {
    exists i :: 0 <= i < |roles| && roles[i] == Some(k)
  }

  /** The part assignment loop: each layer, in order, is stored under the
      part it plays, replacing an earlier layer of the same part in place;
      layers that play no part are dropped. `roles[i]` is the part
      `ls[i]` plays. */
  function AssignParts(ls: seq<Layer>, roles: seq<Option<string>>): (parts: seq<(string, Layer)>)
    requires |roles| == |ls|
    ensures AssocList.DistinctKeys(parts)
    ensures |parts| <= |ls|
    decreases |ls|
  {
    if |ls| == 0 then []
    else
      var parts := AssignParts(ls[..|ls| - 1], roles[..|ls| - 1]);
      match roles[|ls| - 1]
      case None => parts
      case Some(k) => AssocList.Put(parts, k, ls[|ls| - 1])
  }

  /** One step of the loop: the last layer is stored under the part it
      plays and every other part keeps its layer. */
  lemma AssignLast(ls: seq<Layer>, roles: seq<Option<string>>, k: string)
    requires |roles| == |ls| > 0
    ensures var n := |ls| - 1;
      AssocList.Lookup(AssignParts(ls, roles), k) ==
        if roles[n] == Some(k) then Some(ls[n]) else AssocList.Lookup(AssignParts(ls[..n], roles[..n]), k)
  {
  }

  /** A last position that does not hold `k` changes neither whether `k`
      is played nor where it is played last. */
  lemma PlaysExtend(roles: seq<Option<string>>, k: string)
    requires |roles| > 0 && roles[|roles| - 1] != Some(k)
    ensures Plays(roles, k) <==> Plays(roles[..|roles| - 1], k)
    ensures forall i :: LastPlaying(roles[..|roles| - 1], k, i) ==> LastPlaying(roles, k, i)
  {
    var init := roles[..|roles| - 1];
    if Plays(roles, k) {
      var i :| 0 <= i < |roles| && roles[i] == Some(k);
      assert init[i] == roles[i];
    }
  }

  /** A part is detected iff some layer plays it, and the layer stored
      under it is the last layer that does: later layers overwrite earlier
      ones. */
  lemma {:induction false} AssignedLayer(ls: seq<Layer>, roles: seq<Option<string>>, k: string)
    requires |roles| == |ls|
    ensures AssocList.Lookup(AssignParts(ls, roles), k).None? <==> !Plays(roles, k)
    ensures AssocList.Lookup(AssignParts(ls, roles), k).Some? ==>
      exists i :: LastPlaying(roles, k, i) && ls[i] == AssocList.Lookup(AssignParts(ls, roles), k).value
    decreases |ls|
  {
    if |ls| > 0 {
      var n := |ls| - 1;
      var init, initRoles := ls[..n], roles[..n];
      AssignedLayer(init, initRoles, k);
      AssignLast(ls, roles, k);
      var found := AssocList.Lookup(AssignParts(ls, roles), k);
      if roles[n] == Some(k) {
        assert LastPlaying(roles, k, n);
      } else {
        PlaysExtend(roles, k);
        if found.Some? {
          var i :| LastPlaying(initRoles, k, i) && init[i] == found.value;
          assert ls[i] == init[i];
        }
      }
    }
  }

  lemma AssignedLayers(ls: seq<Layer>, roles: seq<Option<string>>)
    requires |roles| == |ls|
    ensures forall k :: AssocList.Lookup(AssignParts(ls, roles), k).None? <==> !Plays(roles, k)
    ensures forall k :: AssocList.Lookup(AssignParts(ls, roles), k).Some? ==>
      exists i :: LastPlaying(roles, k, i) && ls[i] == AssocList.Lookup(AssignParts(ls, roles), k).value
  {
    forall k
      ensures AssocList.Lookup(AssignParts(ls, roles), k).None? <==> !Plays(roles, k)
      ensures AssocList.Lookup(AssignParts(ls, roles), k).Some? ==>
        exists i :: LastPlaying(roles, k, i) && ls[i] == AssocList.Lookup(AssignParts(ls, roles), k).value
    {
      AssignedLayer(ls, roles, k);
    }
  }

  /** The detected parts, in the order their first layer appears. */
  function FirstDetections(roles: seq<Option<string>>): (ks: seq<string>)
    decreases |roles|
  {
    if |roles| == 0 then []
    else
      var ks := FirstDetections(roles[..|roles| - 1]);
      match roles[|roles| - 1]
      case None => ks
      case Some(k) => if k in ks then ks else ks + [k]
  }

  /** The parts keep the position of their first detection, whatever
      overwrites them later. */
  lemma {:induction false} AssignedOrder(ls: seq<Layer>, roles: seq<Option<string>>)
    requires |roles| == |ls|
    ensures AssocList.Keys(AssignParts(ls, roles)) == FirstDetections(roles)
    decreases |ls|
  {
    if |ls| > 0 {
      AssignedOrder(ls[..|ls| - 1], roles[..|ls| - 1]);
    }
  }

  /** Every detected part name is a key of the part table. */
  lemma {:induction false} DetectedNames(roles: seq<Option<string>>)
    requires forall i :: 0 <= i < |roles| && roles[i].Some? ==> roles[i].value in PartNames
    ensures forall i :: 0 <= i < |FirstDetections(roles)| ==> FirstDetections(roles)[i] in PartNames
    decreases |roles|
  {
    if |roles| > 0 {
      DetectedNames(roles[..|roles| - 1]);
    }
  }

  /** `_analyze_character_structure`: the part assignment over the
      flattened layers, and the fixed hierarchy. */
  function AnalyzeStructure(layers: seq<Layer>): (rig: RigData)
    ensures var flat := Flatten(layers);
      forall k :: AssocList.Lookup(rig.parts, k).None? <==> !Plays(Roles(flat), k)
    ensures var flat := Flatten(layers);
      forall k :: AssocList.Lookup(rig.parts, k).Some? ==>
        exists i :: LastPlaying(Roles(flat), k, i) && flat[i] == AssocList.Lookup(rig.parts, k).value
    ensures AssocList.Keys(rig.parts) == FirstDetections(Roles(Flatten(layers)))
    ensures forall i :: 0 <= i < |rig.parts| ==> rig.parts[i].0 in PartNames
    ensures AssocList.DistinctKeys(rig.parts)
    ensures rig.hierarchy == Hierarchy
  {
    var flat := Flatten(layers);
    var roles := Roles(flat);
    var parts := AssignParts(flat, roles);
    AssignedOrder(flat, roles);
    AssignedLayers(flat, roles);
    DetectedNames(roles);
    RigData(parts, Hierarchy)
  }
}
