# Animation generation and Spine rigging, modelled in Dafny

This project models the pure core of a text-to-animation service for 2D
characters. The service has two halves.

**Animation generation** (`src/animation_generator.py`, class
`AnimationGenerator`) works in five steps:
- It interprets a free-text request as a motion, an emotion and an
  intensity. Names are matched as substrings of the lower-cased text,
  taking the first hit in table order.
- It fetches the stored template for the motion.
- It modulates the template by the emotion: the duration is divided by the
  speed factor, limb offsets are scaled by the energy factor, and a neutral
  face gets the emotion's expression.
- It adjusts the animation for the character, which is the identity.
- It derives a delayed, exaggerated hair track from the root track and
  attaches particle effects named by keywords in the raw text.

**Rigging and export** (`src/spine2d_integration.py`, class
`Spine2DIntegration`) has three parts:
- It flattens a character's layer tree into its drawable layers. It then
  decides which layer plays which body part, by synonym search. The last
  layer that plays a part wins, and the part keeps its first position.
- From that it builds a Spine skeleton: a root bone, one bone per part and
  one slot per imaged part. It also builds a default skin and up to four IK
  constraints, and assembles the project.
- It converts a generated animation into a Spine animation: stepped
  rotate/translate timelines, face attachment frames and particle events.
  It then merges that into the stored project's animation map under the
  animation's type, and writes the result to an export file. The stored
  project itself is left unchanged.

Dictionaries are ordered association lists (`AssocList`). Assigning to an
existing key replaces its value in place, and a new key goes at the end, as
in Python. Errors the code raises are `Result` values: `KeyError`,
`ZeroDivision` and `NotFound`. Floating-point numbers are exact `real`s.

Modules, in dependency order:
- `Wrappers`: Option, Result, Error.
- `Strings`: lower-casing, `in` on strings, `replace(p, "")`.
- `AssocList`: ordered dictionaries.
- `AnimationData`: the animation records and the template and emotion tables.
- `Interpreter`: request parsing.
- `Synthesis`: the template, emotion, physics and effect stages.
- `Generation`: the pipeline and the facts about it.
- `Layers`: the layer tree and its flattening.
- `Structure`: body-part analysis.
- `SpineFormat`: the Spine records.
- `Skeleton`: skeleton, skin, IK and project assembly.
- `Exporter`: animation conversion and the merge.
- `Scenarios`: one worked request.

### Behaviour worth knowing

- Motion names are matched as whole substrings. The request "very happy
  waving with sparkles" therefore selects the idle motion, not wave, because
  "waving" does not contain "wave". The lemma `Scenarios.DemoRequest` shows
  the effect on the text "happy waving".
- The emotion stage divides the duration by the speed factor but leaves
  keyframe times unchanged. A sped-up animation can therefore hold
  keyframes past its new end.
- The face track is converted like any other bone track as well as into
  face attachment frames. It yields a bone timeline only if one of its
  keyframes has a rotation, x or y.
- A bone's parent is the first hierarchy entry that lists the part. That
  entry may name a part that was not detected, so the skeleton can refer
  to a parent bone it lacks. `Skeleton.RiggedProject` therefore states
  existence only for the bones that slots and IK constraints use.
- Rigging stores the project; exporting does not. The export reads the
  stored project (`src/spine2d_integration.py:316`) and writes the merged
  one only to its own export file (`:349-350`). The stored project is
  written only while rigging (`:84`). Every export therefore merges into
  the rig's empty animation map, so an exported project holds exactly one
  animation (`Exporter.ExportOfRigged`).

## Model

| member | source | states |
|---|---|---|
| Interpreter.FirstHit | src/animation_generator.py:322-325 | The loop with `break` finds the first table word occurring in the text. The result is None exactly when no word occurs, and every earlier word is absent. |
| Interpreter.MotionIn | src/animation_generator.py:320-325 | The motion is the first template name, in table order, occurring in the text. If none occurs it is "idle". It is always a stored template name. |
| Interpreter.EmotionIn | src/animation_generator.py:327-332 | The emotion is the first emotion name occurring in the text, else "neutral". |
| Interpreter.IntensityIn | src/animation_generator.py:334-350 | The intensity is the factor of the first intensity word occurring in the text, else 1.0. It always lies in [0.5, 2.0]. |
| Interpreter.ParseDescription | src/animation_generator.py:312-352 | The three first-hit choices are made on the lower-cased text, with the defaults idle, neutral and 1.0. |
| Strings.ContainsIff | src/animation_generator.py:323 | Python's `p in s` holds exactly when some slice of `s` equals `p`. |
| Strings.MissingChar | src/animation_generator.py:323 | A pattern with a character the text lacks is not a substring of it. |
| Strings.LowerIdentity | src/animation_generator.py:318 | `lower()` leaves a string without upper-case letters unchanged. |
| Strings.RemoveAll | src/spine2d_integration.py:200 | `replace(p, "")` never lengthens the string, and leaves it unchanged when `p` does not occur. |
| Strings.RemoveAllFirst | src/spine2d_integration.py:200 | `replace(p, "")` keeps everything before the earliest occurrence of `p`, drops that occurrence, and goes on right after it. |
| Strings.RemoveAllKeep | src/spine2d_integration.py:200 | A prefix at none of whose positions `p` starts is kept unchanged in front of the rest's result. |
| Strings.RemoveAllSuffix | src/spine2d_integration.py:200 | A trailing ".png" that no earlier occurrence overlaps is stripped exactly. |
| AssocList.Put | src/spine2d_integration.py:324 | Dictionary assignment: the key maps to the new value, every other key keeps its value, and the key order is kept with a new key at the end. Keys stay distinct. |
| AssocList.PutTwice | src/spine2d_integration.py:324 | Assigning the same value to the same key twice is the same as assigning it once. |
| AssocList.LookupDistinct | src/spine2d_integration.py:324 | With distinct keys, looking up an entry's key finds that entry's value. |
| AnimationData.FindTrack | src/animation_generator.py:412-413 | `keyframes[name]` is present exactly when a track has that name, and the track found carries it. |
| AnimationData.FindEmotion | src/animation_generator.py:366-369 | The emotion lookup fails exactly for names outside the table. A hit is a table entry of that name. |
| AnimationData.EmotionByName | src/animation_generator.py:201-259 | The emotion table's names are distinct, so each entry is found by its own name. |
| AnimationData.TablesKeys | src/animation_generator.py:322-330 | The template and emotion name lists are the tables' keys in iteration order. |
| AnimationData.IntensityKeys | src/animation_generator.py:336-348 | The intensity words are iterated in the order they are written. |
| AnimationData.TemplatesWellFormed | src/animation_generator.py:35-199 | Every stored template has a positive duration, no hair track and no particles. Every keyframe has a time, and every face keyframe has an expression. |
| Synthesis.GetTemplate | src/animation_generator.py:354-362 | A stored name gives its template and an unknown name gives idle. The result is always a well-formed template. |
| Synthesis.ScaleField | src/animation_generator.py:394-396 | A present field is multiplied by the energy factor (zero stays zero). An absent field stays absent. |
| Synthesis.ModulateKeyframe | src/animation_generator.py:385-396 | A face keyframe has "neutral" replaced by the base expression. Any other keyframe has rotation, x and y scaled. The time is kept. |
| Synthesis.ModulateTracks | src/animation_generator.py:385-396 | Every track keeps its name and keyframe count, and every keyframe is modulated as above. |
| Synthesis.ApplyModifier | src/animation_generator.py:369-398 | Success exactly when the speed factor is non-zero and every face keyframe has an expression. On success the duration is divided by the speed factor and the keyframes are modulated. |
| Synthesis.ApplyEmotion | src/animation_generator.py:364-398 | An emotion outside the table returns the animation unchanged. A table emotion behaves as `ApplyModifier` with its modifier. |
| Synthesis.AdjustForCharacter | src/animation_generator.py:400-403 | The character adjustment is the identity. |
| Synthesis.HairKeyframes | src/animation_generator.py:414-428 | Fails exactly when a later root keyframe has no time. Otherwise gives one hair keyframe per root keyframe after the first: 0.1 later, capped at the duration, with x, y and rotation times 1.2. |
| Synthesis.EffectList | src/animation_generator.py:433-461 | The descriptors of the matched keyword groups, in the order sparkle, fire, water, with their fixed count and colour. |
| Synthesis.Particles | src/animation_generator.py:433-458 | Each particle kind is present exactly when its keywords occur, case-sensitively, in the raw text. Descriptors are fixed, carry the duration, and come in the order sparkle, fire, water. |
| Synthesis.AddPhysicsAndEffects | src/animation_generator.py:405-463 | An animation that has a hair track is returned as is. Otherwise the stage fails exactly on a later root keyframe without a time. A root track with two or more keyframes appends a hair track that follows it, and the other tracks and the duration are kept. Particles are set only when some group matched. |
| Generation.SpeedEnergyPositive | src/animation_generator.py:373-378 | With a table emotion and an interpreted intensity, the speed and energy factors stay positive. The speed factor is above or below 1 as the modifier's speed is. |
| Generation.TableModulation | src/animation_generator.py:364-398 | A table emotion at an interpreted intensity never raises on an animation whose face keyframes have expressions. |
| Generation.ModulatedDurationDirection | src/animation_generator.py:380-382 | A faster emotion shortens a positive duration, and a slower one lengthens it. |
| Generation.DurationDirection | src/animation_generator.py:364-382 | A table emotion that speeds motion up shortens any positive duration, and one that slows it down lengthens it. The modulation never raises on such an animation. |
| Generation.ModulatedShape | src/animation_generator.py:384-396 | Modulation keeps track names, keyframe counts and keyframe times. |
| Generation.ShapeTransfer | src/animation_generator.py:408-418 | Animations of the same shape agree on which tracks exist and whether the root times the physics stage reads are present. |
| Generation.TemplatesDeriveHair | src/animation_generator.py:412-431 | Every stored template except wave has a root track of two or more keyframes, so it gains a hair track. |
| Generation.TemplateEmotion | src/animation_generator.py:274-278 | The emotion stage on a fetched template always succeeds. It keeps a positive duration, no hair track and the root times. |
| Generation.Emoted | src/animation_generator.py:274-278 | Template plus emotion for an interpreted request: without a table emotion it is the template. With one, it is the template modulated by that emotion at the request's intensity (same name and tracks, scaled offsets, face expressions rewritten), and its duration is the template's divided by the speed factor, shorter or longer as the emotion is faster or slower. |
| Generation.PhysicsHair | src/animation_generator.py:405-463 | On an emoted template the physics stage never raises and keeps the name and duration. It keeps the tracks when the root track has fewer than two keyframes. Otherwise it appends one hair track trailing the later root keyframes. The particles follow the keyword rule. |
| Generation.GenerateAnimation | src/animation_generator.py:261-284 | The pure pipeline is total. The request is the interpreted one. The result is the emoted template with the physics stage applied: same name, duration and tracks, plus the hair track that trails the root for every motion except wave. The particles are those the raw text asks for. |
| Layers.Flatten | src/spine2d_integration.py:143-156 | Flattening never emits a group layer. |
| Layers.FlattenIsDrawablePreorder | src/spine2d_integration.py:143-156 | Flattening equals the non-group nodes of the pre-order walk: groups are dropped but their children are visited. |
| Layers.FlattenCount | src/spine2d_integration.py:143-156 | The flat list has one entry per non-group node of the tree. |
| Layers.FlattenLeaves | src/spine2d_integration.py:147-150 | A list of layers without children flattens to its non-group members, in order. |
| Layers.Drawable | src/spine2d_integration.py:149-150 | A layer is kept exactly when it is not a group. |
| Structure.AnyOccurs | src/spine2d_integration.py:125 | `any(name in layer_name ...)` holds exactly when some synonym occurs. |
| Structure.PartIn | src/spine2d_integration.py:124-127 | The first table entry with an occurring synonym, or None exactly when no entry has one. |
| Structure.MatchPart | src/spine2d_integration.py:122-127 | A layer plays the first body part, in table order, with a synonym in its lower-cased name. |
| Structure.AssignParts | src/spine2d_integration.py:121-127 | The part map has distinct keys and no more entries than layers. |
| Structure.AssignLast | src/spine2d_integration.py:121-127 | One loop step stores the last layer under its part and leaves every other part unchanged. |
| Structure.AssignedLayer | src/spine2d_integration.py:121-127 | A part is detected exactly when some layer plays it, and it holds the last layer that does. |
| Structure.AssignedOrder | src/spine2d_integration.py:121-127 | Parts keep the position of their first detection, whatever overwrites them later. |
| Structure.DetectedNames | src/spine2d_integration.py:107-127 | Every detected part is a key of the part table. |
| Structure.AnalyzeStructure | src/spine2d_integration.py:96-141 | The analysis over the flattened layers: the last-wins, first-position part map, and the fixed hierarchy. |
| Skeleton.ParentIndex | src/spine2d_integration.py:180-185 | The parent loop finds the first hierarchy entry listing the part, or None when no entry does. |
| Skeleton.ParentOf | src/spine2d_integration.py:180-185 | A part's parent is the first hierarchy entry listing it, else "root". |
| Skeleton.PartBone | src/spine2d_integration.py:171-193 | Raises exactly for a placed layer without a size. Otherwise the bone is named after the part with its parent, placed at the layer centre relative to the canvas centre (0 if unplaced), with length half the larger side or 50. |
| Skeleton.AttachmentName | src/spine2d_integration.py:200 | The attachment name is the image path with every ".png" removed: the part before the earliest ".png" is kept, that ".png" is dropped, and the rest is treated the same way. A path without ".png" is its own name. |
| Skeleton.PartSlot | src/spine2d_integration.py:195-201 | The slot is "slot_" plus the part name, bound to the part's bone, showing the image's attachment. |
| Skeleton.PartBones | src/spine2d_integration.py:171-201 | Raises exactly when some part is unsized. Otherwise there is one bone per part in parts order, and the slots are exactly those of the imaged parts. |
| Skeleton.CreateSkeleton | src/spine2d_integration.py:158-206 | The root bone at the canvas centre comes first, then the part bones and their slots. Raises exactly when a part is unsized. |
| Skeleton.PartSkin | src/spine2d_integration.py:213-233 | The skin attachment sits at the slot origin with the layer's size (100 by 100 without one) and its image path. |
| Skeleton.SlotNameInjective | src/spine2d_integration.py:215 | Distinct parts get distinct slot names. |
| Skeleton.SkinKeys | src/spine2d_integration.py:208-235 | The skin is keyed by the slot names of the imaged parts, in parts order. |
| Skeleton.SkinLast | src/spine2d_integration.py:213-233 | One skin loop step stores the last imaged part's attachment under its slot name and changes nothing else. |
| Skeleton.SkinEntries | src/spine2d_integration.py:213-233 | Each imaged part's slot name holds that part's attachment. |
| Skeleton.CreateSkin | src/spine2d_integration.py:208-235 | One entry per imaged part, keyed by slot name, holding its attachment. |
| Skeleton.DetectedIk | src/spine2d_integration.py:241-277 | A constraint is present exactly when both limbs of its table row were detected. |
| Skeleton.CreateIk | src/spine2d_integration.py:237-279 | The IK constraints are those of the detected limb pairs, in the order right arm, left arm, right leg, left leg. |
| Skeleton.DetectedIkTable | src/spine2d_integration.py:241-277 | The four independent checks of the source, written out, give the same list. |
| Skeleton.IkRows | src/spine2d_integration.py:241-277 | Each row's constraint is present exactly when both its limbs were detected. |
| Skeleton.IkShape | src/spine2d_integration.py:241-277 | At most four constraints, each with mix 1 on a one-bone chain; only the right arm bends positively. Each names detected parts. |
| Skeleton.RigCharacter | src/spine2d_integration.py:26-73 | A missing character raises not-found. Rigging fails exactly when the canvas size is missing or a part is unsized. Otherwise the project has the header, the skeleton's bones and slots, one default skin, the IK constraints and no animations. |
| Skeleton.SkeletonBoneOrder | src/spine2d_integration.py:163-193 | Bone 0 is "root", and bone i is named after part i-1. |
| Skeleton.DistinctBoneNames | src/spine2d_integration.py:163-193 | A root bone followed by one bone per distinct part name has distinct names. |
| Skeleton.SkeletonBoneNames | src/spine2d_integration.py:163-193 | The skeleton's bone names are distinct, and every detected part has a bone. |
| Skeleton.SkeletonSlotBones | src/spine2d_integration.py:195-201 | Every slot is bound to a bone of the skeleton. |
| Skeleton.RiggedProject | src/spine2d_integration.py:57-73 | A rigged project has the root bone first and distinct bone names. Every slot and IK constraint names a bone it has. |
| Exporter.PickPlaced | src/spine2d_integration.py:417-435 | A kept element produces the output entry at its rank among the kept elements. |
| Exporter.PickSound | src/spine2d_integration.py:417-435 | Every output entry comes from some kept element. |
| Exporter.RotateFrames | src/spine2d_integration.py:421-427 | One rotate frame per keyframe with a rotation. |
| Exporter.TranslateFrames | src/spine2d_integration.py:429-435 | One translate frame per keyframe with an x or a y. |
| Exporter.TimelineOf | src/spine2d_integration.py:410-435 | A track's timelines: rotate and translate frame counts as above, and an empty scale timeline. |
| Exporter.TimelineFrames | src/spine2d_integration.py:417-435 | Each rotating keyframe gives the stepped rotate frame at its rank, with its time (0 without one) and angle. Each translating keyframe gives the stepped translate frame with the missing axis 0. |
| Exporter.AnimatedIff | src/spine2d_integration.py:437-439 | A track is exported exactly when one of its keyframes has a rotation, an x or a y. |
| Exporter.BoneTimelines | src/spine2d_integration.py:409-439 | The bone map has distinct keys. |
| Exporter.BoneTimelinesKeys | src/spine2d_integration.py:409-439 | The bone map is keyed by the animated tracks, in track order. |
| Exporter.BoneTimelinesEntry | src/spine2d_integration.py:409-439 | Each track's bone holds its timelines when it is animated and is absent otherwise. |
| Exporter.BoneTimelinesAbsent | src/spine2d_integration.py:409-439 | A name that belongs to no track gets no bone timeline. |
| Exporter.FaceSlots | src/spine2d_integration.py:441-454 | A `slot_face` timeline exists exactly when there is a face track. It has one frame per face keyframe with an expression. |
| Exporter.FaceFrames | src/spine2d_integration.py:447-452 | Each face keyframe with an expression gives, at its rank, the frame at its time showing `face_<expression>`. |
| Exporter.EventOf | src/spine2d_integration.py:460-467 | A particle becomes a time-0 event `effect_<type>`, with colour, count and duration defaulting to "#FFFFFF", 10 and 1.0. |
| Exporter.EventRoundTrip | src/spine2d_integration.py:460-467 | A particle with colour, count and duration can be read back unchanged from its event: the event keeps the type after the `effect_` prefix and all three parameters. |
| Exporter.GeneratedEffectsExported | src/spine2d_integration.py:457-467 | Every particle the generator attaches is recovered unchanged from its exported event. |
| Exporter.Convert | src/spine2d_integration.py:399-472 | No deform or draw-order entries. Bones are only those of tracks, with distinct keys. The face slot exists exactly when a face track does. There is one event per particle, in order. |
| Exporter.ConvertBones | src/spine2d_integration.py:409-439 | The converted bones are keyed by the animated tracks in order, each holding its track's timelines. |
| Exporter.ExportAnimation | src/spine2d_integration.py:293-324 | A missing animation or metadata raises not-found, then a missing rig does. Otherwise the converted animation is stored under the animation type (default "animation"), every other animation is kept, and key order is kept with a new name at the end. |
| Exporter.ExportIdempotent | src/spine2d_integration.py:319-324 | The merge is idempotent: merging the same animation into its own result changes nothing. The program itself never chains exports. |
| Exporter.FirstExport | src/spine2d_integration.py:319-324 | A project with no animations, as rigging stores it, exports holding exactly the converted animation. |
| Exporter.ExportOfRigged | src/spine2d_integration.py:313-324 | Export reloads the stored rig, which has an empty animation map. So every export of a rigged character is that project holding exactly the converted animation. |
| Scenarios.DemoNamesNoMotion | src/animation_generator.py:320-325 | "happy waving" contains no motion name; in particular "waving" does not contain "wave". |
| Scenarios.DemoRequest | src/animation_generator.py:312-352 | "happy waving" is read as the idle motion, happy, at intensity 1.0. |
| Scenarios.DemoDuration | src/animation_generator.py:373-382 | Happy at 1.0 plays the 4-second idle template in 10/3 seconds. |
| Scenarios.DemoParticles | src/animation_generator.py:433-461 | "happy waving" asks for no particle effect. |
| Scenarios.DemoAnimation | src/animation_generator.py:261-284 | The whole pipeline on "happy waving" gives idle/happy/1.0, a duration of 10/3, a hair track and no particles. |
| Scenarios.HappyIdleRoot | src/animation_generator.py:384-396 | Happy at 1.0 scales the idle root bob to -3.9 (energy 1.3) and keeps its times 0, 2 and 4. |
| Scenarios.HairOfRootBob | src/animation_generator.py:412-431 | Physics on that root appends a fifth track, hair, with keyframes at 2.1 and 10/3 (4.1 cut at the end) and y values 1.2 times the root's. |
| Scenarios.DemoHair | src/animation_generator.py:261-284 | The whole pipeline on "happy waving" ends with a hair track of exactly two keyframes: time 2.1 at y -4.68, and time 10/3 at y 0. |

## Left out

- File and directory I/O, JSON serialisation, uuid identifiers, timestamps and logging are not modelled. Neither are the returned summary dictionaries (ids, bone and IK counts) or the export metadata and export paths.
- The "png" and "gif" export branches are left out: they only write placeholder files.
- Decoding character documents is not part of this model. The stored character metadata is a parameter of `Skeleton.RigCharacter`, as an optional canvas size and layer tree.
- Reading an animation and its metadata, and finding a character's rig (`_find_rig_for_character`), are also not modelled. `Exporter.ExportAnimation` takes the animation, its metadata and the loaded project as optional parameters.
- Floating-point rounding is not modelled: arithmetic is exact on `real`. In particular, the speed-factor test `!= 1.0` and the zero division are decided exactly.
- Layer records are assumed to carry "type", "name" and "path". An absent or non-list `children` is modelled as an empty child list, which the flattening cannot tell apart.
- The loaded project is assumed to have an "animations" map, which every rigged project has.
- `Exporter.ExportName`: an explicit `animation_type` of `None` in stored metadata is not modelled. Only a present string or an absent key is.
- Dictionary-typed values the code never inspects are kept only as far as the stages read them: the blink rate and bounce of an emotion, and the path passed down the flattening.
- Exporter.ConvertBones: requires distinct track names. They are dictionary keys in the source, and the model's track list does not enforce that by itself.
- Skeleton.CreateSkin: requires distinct part keys, which `Structure.AnalyzeStructure` guarantees.
- Skeleton.CreateSkeleton: the order of the slots is not stated. The contract gives their number and says they are exactly the imaged parts' slots. The bones are stated in order.
- Skeleton.PartBones: states the slot list by count, soundness and coverage, not by position.
- Strings.Lower: lower-cases ASCII letters only. Python's `str.lower` also lower-cases other scripts and special letters (the Kelvin sign K lower-cases to "k", so the source reads "WAL\u212A" as walk while the model reads idle). This affects `Interpreter.ParseDescription` and `Structure.MatchPart`.
- Exporter.ExportOfRigged: states the export of a rigged project only. The storage of rigs (files under the rig directory) is not modelled, so the model cannot say that nothing else writes a rig's project file.
- Skeleton.RiggedProject: does not claim that every bone's parent exists. The code can name an undetected parent part.
