# RobCoG interaction and control logic in Dafny

A model of the sequential logic inside the RobCoG Unreal Engine project, with proofs about it:

- **PID controllers.** `FRPid` (scalar) and `FRPid3d` (vector) are classes over reals. `Update` is proved against a pure error-state transition.
- **Grasp bookkeeping.** `FRGrasp` holds the grasp state and the set of blocked fingers.
- **Newer desktop character.** `ARWebCharacter` in Player/ covers:
  - the `Interactive:` tag registry;
  - the hand-selection rules;
  - the rotation-axis cycle;
  - collecting and releasing items with their stacks;
  - opening furniture;
  - highlight and clone bookkeeping.

  The class keeps the source's fields. `Snapshot()` packs them into a `CharacterState` value. Each method is proved equal to a pure transition on that value, and the lemmas are stated on those transitions.
- **Older desktop character.** `ARWebCharacter` in Control/ has its own tag parser, an unconditional cycle of hands, the crouch speed factor, pick up and put down, and the highlight-follow rule.
- **Grasp-log serialiser.** `ForceFileWriter` writes a fixed textual record per item, chains every append through a `Success` flag, and stops appending after the first failure.

Modules:

- `Wrappers` (`Option`)
- `Actors` (actor ids, tagged actors)
- `FString` (the engine string operations the tag parser relies on)
- `InteractiveTags` (the tag scan both characters share)
- `PidControl`, `Pid3dControl`, `GraspState`
- `WebInteraction`, `LegacyWebInteraction`
- `ForceFileWriter`

Assumptions about the engine:

- `FString::RemoveFromStart` ignores letter case and fails on an empty prefix. The folding is ASCII only.
- `FString::Equals` is case-sensitive.
- `ParseIntoArray` drops empty pieces.
- `Split` cuts at the first separator and leaves both halves empty when there is none.
- `TMap::Add` overwrites an existing key.
- A null actor pointer is `None`, and actors are opaque ids.
- The engine's answers are inputs to the methods:
  - whether the trace hit something valid;
  - whether the hit is a static mesh;
  - whether the character can crouch;
  - whether the k-th append to a file succeeds (`accepts(k)`);
  - how a float is printed (`fmt`);
  - the grasp type names (`None` when the enum is missing).
- The order in which `TActorIterator` and the `TMap` iterate is the order of the given sequence.

## Model

| member | source | states |
|---|---|---|
| FString.RemoveFromStart | Source/RobCoG/Player/RWebCharacter.cpp:152 | succeeds exactly when the prefix is non-empty and the string starts with it, ignoring letter case; the string is then the matched prefix followed by the result; an empty prefix fails |
| FString.RemoveFromStartAnyCase | Source/RobCoG/Player/RWebCharacter.cpp:152 | any non-empty spelling of the prefix that differs only in letter case is removed, and exactly the rest remains; an empty prefix removes nothing |
| FString.IndexOf | Source/RobCoG/Player/RWebCharacter.cpp:165 | the position of the first occurrence of the separator, or the length when it is absent |
| FString.Split | Source/RobCoG/Player/RWebCharacter.cpp:165 | with a separator: left + sep + right is the input and left holds no separator; without one: both halves are empty |
| FString.SplitRoundTrip | Source/RobCoG/Player/RWebCharacter.cpp:165 | splitting left + sep + right, when left has no separator, gives back left and right |
| FString.ParseIntoArray | Source/RobCoG/Player/RWebCharacter.cpp:157 | every piece is non-empty and free of the delimiter (which pieces they are: ParseJoinCulls) |
| FString.ParseJoinRoundTrip | Source/RobCoG/Player/RWebCharacter.cpp:157 | parsing non-empty, delimiter-free pieces joined with the delimiter gives back exactly those pieces |
| FString.ParseLeadingDelimiter | Source/RobCoG/Player/RWebCharacter.cpp:157 | a leading delimiter adds no piece: the empty piece it opens is dropped |
| FString.ParseJoinCulls | Source/RobCoG/Player/RWebCharacter.cpp:157 | parsing delimiter-free pieces joined with the delimiter, empty ones included, gives back exactly the non-empty pieces in order |
| InteractiveTags.FirstInteractiveTag | Source/RobCoG/Player/RWebCharacter.cpp:146-152 | the position of the first tag that starts with "Interactive:" (any case); no earlier tag does |
| InteractiveTags.LaterTagsIgnored | Source/RobCoG/Player/RWebCharacter.cpp:146-216 | tags after the first interactive tag never change the parsed entries (the scan breaks) |
| InteractiveTags.EarlierTagsIgnored | Source/RobCoG/Player/RWebCharacter.cpp:146-152 | non-interactive tags before the first interactive one contribute nothing |
| InteractiveTags.InteractiveTagRoundTrip | Source/RobCoG/Player/RWebCharacter.cpp:152-157 | a tag made of the prefix and entries joined with ';' is parsed back into exactly those entries |
| PidControl.Clamp | Source/RobCoG/Control/RPid.h:80-85 | with OutMin <= OutMax the result lies in [OutMin, OutMax]; an in-range value is returned unchanged; above the maximum gives OutMax |
| PidControl.RunIntegral | Source/RobCoG/Control/RPid.h:57-66 | after any series of updates the integral error grew by the sum of DeltaT*Error over the updates that were not skipped |
| PidControl.RunPrevErr | Source/RobCoG/Control/RPid.h:57-74 | after any series of updates PrevErr is the error of the last update that was not skipped, else unchanged |
| PidControl.Pid.constructor | Source/RobCoG/Control/RPid.h:26-32 | stores the gains and limits, each 0 when not given; the error state starts at zero |
| PidControl.Pid.Init | Source/RobCoG/Control/RPid.h:40-50 | stores all five parameters, each 0 when not given, and zeroes the error state |
| PidControl.Pid.Update | Source/RobCoG/Control/RPid.h:55-86 | zero DeltaT or NaN error: returns 0 and nothing changes; otherwise IErr grows by DeltaT*Error, PrevErr becomes Error, and the result is the clamped P+I+D sum, inside [OutMin, OutMax] when the limits are ordered |
| PidControl.Pid.Reset | Source/RobCoG/Control/RPid.h:89-93 | zeroes IErr and PrevErr; the gains and limits stay |
| Pid3dControl.ClampAsWritten | Source/RobCoG/Control/RPid3d.h:82-86 | X is clamped like the scalar clamp; a component above OutMax becomes OutMax, so with OutMin <= OutMax none exceeds it; when X is below OutMin, Y and Z not above OutMax become OutMin whatever their own value; when X is not below OutMin, Y and Z have no lower clamp |
| Pid3dControl.ClampPerComponent | Source/RobCoG/Control/RPid3d.h:81 | each component is clamped on its own, as the comment describes |
| Pid3dControl.PerComponentInRange | Source/RobCoG/Control/RPid3d.h:81 | with ordered limits every component of the per-component clamp is in range |
| Pid3dControl.AsWrittenLetsYBelowMin | Source/RobCoG/Control/RPid3d.h:84 | for Out = (0, -5, 0), OutMax = 1 and OutMin = -1, the code returns Y = -5; the per-component clamp returns -1 |
| Pid3dControl.AsWrittenRaisesInRangeY | Source/RobCoG/Control/RPid3d.h:84 | for Out = (-5, 0, 0), the code moves the in-range Y = 0 to -1 |
| Pid3dControl.ClampsAgree | Source/RobCoG/Control/RPid3d.h:82-86 | the two clamps agree whenever X's lower test decides Y and Z the way their own tests would |
| Pid3dControl.XChannelIsScalarPid | Source/RobCoG/Control/RPid3d.h:64-83 | the X channel of the 3-D controller is the scalar controller on the X components: same error state and same output |
| Pid3dControl.Pid3d.constructor | Source/RobCoG/Control/RPid3d.h:27-33 | stores gains and limits, each 0 when not given; both error vectors start at zero |
| Pid3dControl.Pid3d.Init | Source/RobCoG/Control/RPid3d.h:41-51 | stores all five parameters, each 0 when not given, and zeroes both error vectors |
| Pid3dControl.Pid3d.Update | Source/RobCoG/Control/RPid3d.h:56-89 | zero DeltaT returns the zero vector and changes nothing; otherwise IErr grows componentwise by DeltaT*Error, PrevErr becomes Error, no component exceeds OutMax and X is at least OutMin |
| Pid3dControl.Pid3d.Reset | Source/RobCoG/Control/RPid3d.h:92-96 | zeroes both error vectors |
| Pid3dControl.DefaultController | Source/RobCoG/Control/RMCHand.h:115 | a controller declared without arguments has every gain and limit 0 and a zero error state |
| GraspState.Without | Source/RobCoG/Player/RGrasp.h:33-34 | the remaining fingers are exactly the old ones other than the freed one, still without duplicates |
| GraspState.Grasp.constructor | Source/RobCoG/Player/RGrasp.h:13 | a new grasp is opened with no blocked finger |
| GraspState.Grasp.SetState | Source/RobCoG/Player/RGrasp.h:24-25 | the grasp state becomes the given one |
| GraspState.Grasp.GetState | Source/RobCoG/Player/RGrasp.h:27-28 | returns the grasp state |
| GraspState.Grasp.BlockFinger | Source/RobCoG/Player/RGrasp.h:30-31 | the blocked set gains exactly the finger |
| GraspState.Grasp.FreeFinger | Source/RobCoG/Player/RGrasp.h:33-34 | the blocked set loses exactly the finger |
| GraspState.Grasp.FreeFingers | Source/RobCoG/Player/RGrasp.h:36-37 | no finger is blocked |
| GraspState.Grasp.IsFingerBlocked | Source/RobCoG/Player/RGrasp.h:39-40 | true exactly when the finger is blocked |
| GraspState.GraspClient | Source/RobCoG/Player/RGrasp.h:24-40 | a set state is read back; a blocked finger reads blocked and a freed one free; another finger's status is untouched; after freeing all, none is blocked |
| WebInteraction.ParseInteraction | Source/RobCoG/Player/RWebCharacter.cpp:169-188 | accepts exactly the display names of Openable, Pickable and TwoHandsPickable |
| WebInteraction.ParseStackable | Source/RobCoG/Player/RWebCharacter.cpp:190-207 | accepts exactly the display names of SameType, Mixed and Tray |
| WebInteraction.InteractionEntryRecords | Source/RobCoG/Player/RWebCharacter.cpp:165-188 | an "Interaction,Val" entry records the named kind and, for Openable, a closed state; an unknown value records nothing; stack kinds are untouched |
| WebInteraction.StackableEntryRecords | Source/RobCoG/Player/RWebCharacter.cpp:190-207 | a "Stackable,Val" entry records the named stack kind; an unknown value records nothing; nothing else changes |
| WebInteraction.UnrecognisedEntryRecordsNothing | Source/RobCoG/Player/RWebCharacter.cpp:208-211 | an entry with any other key records nothing |
| WebInteraction.EntryWithoutCommaRecordsNothing | Source/RobCoG/Player/RWebCharacter.cpp:165-169 | an entry without a comma has an empty key and records nothing |
| WebInteraction.ApplyEntriesOnlyTouchesActor | Source/RobCoG/Player/RWebCharacter.cpp:160-212 | the entries of one actor's tag leave every other actor's records as they were |
| WebInteraction.ApplyActorsOnlyAdds | Source/RobCoG/Player/RWebCharacter.cpp:139-219 | the registry only gains or replaces records, never loses one |
| WebInteraction.LaterTagsOfActorIgnored | Source/RobCoG/Player/RWebCharacter.cpp:146-216 | an actor's tags after its first interactive tag change nothing |
| WebInteraction.TaggedActorRecords | Source/RobCoG/Player/RWebCharacter.cpp:152-213 | an actor tagged with the prefix and ';'-joined entries gets exactly those entries applied |
| WebInteraction.NextRotAxis | Source/RobCoG/Player/RWebCharacter.cpp:314-319 | the uint8 index stays in {0,1,2} and moves to (i + 1) mod 3 |
| WebInteraction.RotAxisCycle | Source/RobCoG/Player/RWebCharacter.cpp:314-319 | three axis switches bring the axis back |
| WebInteraction.SwitchedHandRules | Source/RobCoG/Player/RWebCharacter.cpp:377-409 | Right goes to Left; Left goes to Both when neither single hand holds an item and to Right otherwise; Both goes to Right exactly when it holds nothing and otherwise stays; so Both is only chosen with Left and Right free, and a switch always changes the hand |
| WebInteraction.EmptyHandedCycle | Source/RobCoG/Player/RWebCharacter.cpp:377-400 | with empty hands three switches return to the starting hand |
| WebInteraction.Toggle | Source/RobCoG/Player/RWebCharacter.cpp:575-591 | the actor's opened flag is flipped; every other flag and the key set are unchanged |
| WebInteraction.ToggleTwice | Source/RobCoG/Player/RWebCharacter.cpp:575-591 | flipping twice restores the opened-state map |
| WebInteraction.TransitionsKeepValid | Source/RobCoG/Player/RWebCharacter.cpp:306-905 | every transition keeps the axis in {0,1,2} and no stacked clone without a clone root |
| WebInteraction.CollectOutcome | Source/RobCoG/Player/RWebCharacter.cpp:500-570 | collecting maps the selected hand to the highlighted root, clears all highlights, and leaves a hidden red clone of the root with one clone per attached item |
| WebInteraction.CollectThenRelease | Source/RobCoG/Player/RWebCharacter.cpp:456-570 | collecting with a free hand, then releasing on a valid hit with a green clone, restores the hand map and leaves nothing attached |
| WebInteraction.ReleaseOutcome | Source/RobCoG/Player/RWebCharacter.cpp:456-497 | without a valid hit and a green clone nothing changes; otherwise the hand map loses exactly the selected hand, the attached stack and stacked clones are emptied, the axis resets, and the registry, selected hand, highlights, clone root and clone flags stay |
| WebInteraction.SelectDirection | Source/RobCoG/Player/RWebCharacter.cpp:424-453 | selecting with an occupied hand never fills a hand; selecting with a free hand never empties one |
| WebInteraction.SwitchHandsOutcome | Source/RobCoG/Player/RWebCharacter.cpp:374-421 | Both holding an item: nothing changes; otherwise the hand changes, highlights clear, the axis resets, and the new hand has a clone of its item exactly when it holds one |
| WebInteraction.ManipulateTwice | Source/RobCoG/Player/RWebCharacter.cpp:573-592 | opening and closing the same highlighted furniture restores the registry |
| WebInteraction.WebCharacter.constructor | Source/RobCoG/Player/RWebCharacter.cpp:13-57 | right hand, not green, clones visible, axis 0, nothing registered, held or highlighted |
| WebInteraction.WebCharacter.AddEntry | Source/RobCoG/Player/RWebCharacter.cpp:160-212 | the three maps become the registry with the entry applied |
| WebInteraction.WebCharacter.AddEntries | Source/RobCoG/Player/RWebCharacter.cpp:160-212 | the three maps become the registry with the tag's entries applied in order |
| WebInteraction.WebCharacter.AddActor | Source/RobCoG/Player/RWebCharacter.cpp:146-216 | the entries of the actor's first interactive tag are applied; an actor without one changes nothing |
| WebInteraction.WebCharacter.InitInteractiveItems | Source/RobCoG/Player/RWebCharacter.cpp:139-219 | the three maps become the registry with every actor's first interactive tag applied, actor by actor |
| WebInteraction.WebCharacter.SwitchRotAxis | Source/RobCoG/Player/RWebCharacter.cpp:306-321 | axis forced to 0 with a cloned stack, otherwise the next axis; the index stays valid |
| WebInteraction.WebCharacter.RemoveHighlights | Source/RobCoG/Player/RWebCharacter.cpp:788-813 | no highlighted root and both highlight stacks empty |
| WebInteraction.WebCharacter.RemoveClones | Source/RobCoG/Player/RWebCharacter.cpp:893-905 | stacked clones emptied when there is a clone root; the axis always resets to 0 |
| WebInteraction.WebCharacter.CreateClones | Source/RobCoG/Player/RWebCharacter.cpp:816-863 | old clones removed; a hidden, red clone of the root plus one clone per attached item |
| WebInteraction.WebCharacter.SwitchHands | Source/RobCoG/Player/RWebCharacter.cpp:374-421 | the state after is the hand-switch transition of the state before |
| WebInteraction.WebCharacter.CollectActor | Source/RobCoG/Player/RWebCharacter.cpp:500-570 | the state after is the collect transition of the state before |
| WebInteraction.WebCharacter.ReleaseActor | Source/RobCoG/Player/RWebCharacter.cpp:456-497 | the state after is the release transition of the state before |
| WebInteraction.WebCharacter.ManipulateActor | Source/RobCoG/Player/RWebCharacter.cpp:573-592 | the highlighted furniture's opened flag is flipped if it has one |
| WebInteraction.WebCharacter.OnSelect | Source/RobCoG/Player/RWebCharacter.cpp:424-453 | release with an occupied hand; otherwise collect a Pickable highlight or open an Openable one; anything else changes nothing |
| LegacyWebInteraction.ParseInteraction | Source/RobCoG/Control/RWebCharacter.cpp:97-115 | accepts exactly the display names of Openable, Pickable and PickableWithTwoHands |
| LegacyWebInteraction.InteractionEntryRecords | Source/RobCoG/Control/RWebCharacter.cpp:93-115 | an "Interaction,Val" entry records the named kind; an unknown value records nothing |
| LegacyWebInteraction.StackableEntryRecordsNothing | Source/RobCoG/Control/RWebCharacter.cpp:116-130 | "Stackable" entries record nothing, whatever their value |
| LegacyWebInteraction.TaggedActorRecords | Source/RobCoG/Control/RWebCharacter.cpp:79-137 | an actor tagged with the prefix and ';'-joined entries gets exactly those entries applied |
| LegacyWebInteraction.NoOpenableWithTwoHands | Source/RobCoG/Control/RWebCharacter.cpp:66-141 | the parser never records OpenableWithTwoHands |
| LegacyWebInteraction.NextHand | Source/RobCoG/Control/RWebCharacter.cpp:208-221 | a switch always changes the hand |
| LegacyWebInteraction.ThreeSwitchesRestore | Source/RobCoG/Control/RWebCharacter.cpp:208-221 | three switches restore the hand, whatever the hands hold |
| LegacyWebInteraction.CrouchSpeed | Source/RobCoG/Control/RWebCharacter.cpp:192-205 | half speed exactly when crouching down, full speed exactly when standing up |
| LegacyWebInteraction.HighlightAfter | Source/RobCoG/Control/RWebCharacter.cpp:286-324 | the highlight is the hit actor exactly when it is an interactive static mesh actor, else null |
| LegacyWebInteraction.HighlightFollowsTrace | Source/RobCoG/Control/RWebCharacter.cpp:297-301 | tracing the highlighted actor again keeps it highlighted |
| LegacyWebInteraction.SelectOutcome | Source/RobCoG/Control/RWebCharacter.cpp:227-242 | with an occupied hand only that hand's entry is removed; with a free hand no entry is removed |
| LegacyWebInteraction.PickUpThenPutDown | Source/RobCoG/Control/RWebCharacter.cpp:227-256 | selecting a pickable highlight puts it in the hand; selecting again restores the hand map |
| LegacyWebInteraction.InteractStoresHighlight | Source/RobCoG/Control/RWebCharacter.cpp:252-255 | a pickable item stores the highlighted actor, not the item asked about |
| LegacyWebInteraction.LegacyWebCharacter.constructor | Source/RobCoG/Control/RWebCharacter.cpp:8-45 | right hand at full speed; nothing registered, held or highlighted |
| LegacyWebInteraction.LegacyWebCharacter.AddEntry | Source/RobCoG/Control/RWebCharacter.cpp:88-131 | the registry becomes the registry with the entry applied |
| LegacyWebInteraction.LegacyWebCharacter.AddEntries | Source/RobCoG/Control/RWebCharacter.cpp:88-131 | the registry becomes the registry with the tag's entries applied in order |
| LegacyWebInteraction.LegacyWebCharacter.AddActor | Source/RobCoG/Control/RWebCharacter.cpp:73-138 | the entries of the actor's first interactive tag are applied; an actor without one changes nothing |
| LegacyWebInteraction.LegacyWebCharacter.InitInteractiveItems | Source/RobCoG/Control/RWebCharacter.cpp:66-141 | the registry becomes the old one with every actor's first interactive tag applied |
| LegacyWebInteraction.LegacyWebCharacter.ToggleCrouch | Source/RobCoG/Control/RWebCharacter.cpp:192-205 | SpeedFactor is 0.5 after crouching and 1.0 after standing up |
| LegacyWebInteraction.LegacyWebCharacter.SwitchHands | Source/RobCoG/Control/RWebCharacter.cpp:208-224 | the hand moves one step along the Right, Left, Both cycle |
| LegacyWebInteraction.LegacyWebCharacter.OnSelect | Source/RobCoG/Control/RWebCharacter.cpp:227-242 | the state after is the select transition of the state before |
| LegacyWebInteraction.LegacyWebCharacter.IteractWithItem | Source/RobCoG/Control/RWebCharacter.cpp:245-272 | always returns true; a pickable item maps the hand to the highlighted actor |
| LegacyWebInteraction.LegacyWebCharacter.TraceHighlight | Source/RobCoG/Control/RWebCharacter.cpp:275-325 | the highlight becomes the hit actor if it is an interactive static mesh actor, else null |
| ForceFileWriter.SectionOrderIsFingerMajor | Source/RobCoG/Utilities/ForceFileWriter.cpp:65-161 | sections go Index, Middle, Ring, Pinky, Thumb and, within a finger, Distal, Intermediate, Proximal |
| ForceFileWriter.GraspTypeText | Source/RobCoG/Utilities/ForceFileWriter.cpp:46-52 | "Error" when the enum is missing, else the display name of the grasp type |
| ForceFileWriter.FloatPiecesText | Source/RobCoG/Utilities/ForceFileWriter.cpp:22 | the float appends of a section spell ';' and the formatted value for each force |
| ForceFileWriter.SectionPiecesText | Source/RobCoG/Utilities/ForceFileWriter.cpp:65-161 | the fifteen sections' appends spell the five fingers' text in order |
| ForceFileWriter.EntryPiecesText | Source/RobCoG/Utilities/ForceFileWriter.cpp:54-164 | the appends for one entry spell its record: name, grasp type and status lines, forces only for a successful grasp, then a blank line |
| ForceFileWriter.MapPiecesText | Source/RobCoG/Utilities/ForceFileWriter.cpp:41-165 | the appends for the whole map spell the records one after the other |
| ForceFileWriter.FailedGraspHasNoForces | Source/RobCoG/Utilities/ForceFileWriter.cpp:54-65 | a failed grasp's record is the three header lines and the closing blank line |
| ForceFileWriter.ChainAfterFailure | Source/RobCoG/Utilities/ForceFileWriter.cpp:54-164 | once an append failed, no further append is attempted and nothing changes |
| ForceFileWriter.ChainOutcome | Source/RobCoG/Utilities/ForceFileWriter.cpp:40-167 | Success stays true exactly when every append succeeded, and the file grew by all of them; otherwise exactly the appends before the first failure took effect |
| ForceFileWriter.MapOutcome | Source/RobCoG/Utilities/ForceFileWriter.cpp:40-167 | on success the file grew by exactly the records; an empty map changes nothing |
| ForceFileWriter.LogFile.Append | Source/RobCoG/Utilities/ForceFileWriter.cpp:22 | one attempt: the text is appended exactly when the file accepts this attempt |
| ForceFileWriter.AppendStringToFile | Source/RobCoG/Utilities/ForceFileWriter.cpp:25-32 | appends the string as it is |
| ForceFileWriter.AppendFloatToFile | Source/RobCoG/Utilities/ForceFileWriter.cpp:16-23 | appends ';' followed by the formatted value |
| ForceFileWriter.WriteSection | Source/RobCoG/Utilities/ForceFileWriter.cpp:68-72 | the header, then one append per force, each skipped once Success is false |
| ForceFileWriter.WriteEntryHead | Source/RobCoG/Utilities/ForceFileWriter.cpp:54-63 | the item name, grasp type and status lines, chained through Success |
| ForceFileWriter.WriteSections | Source/RobCoG/Utilities/ForceFileWriter.cpp:65-161 | the given sections one after the other, chained through Success |
| ForceFileWriter.WriteForces | Source/RobCoG/Utilities/ForceFileWriter.cpp:65-161 | the fifteen sections in order, chained through Success |
| ForceFileWriter.WriteEntry | Source/RobCoG/Utilities/ForceFileWriter.cpp:43-164 | one record's appends, forces only for a successful grasp, chained through Success |
| ForceFileWriter.WriteGraspInfoMapToFile | Source/RobCoG/Utilities/ForceFileWriter.cpp:34-168 | returns true exactly when every attempted append succeeded, in which case the file grew by exactly the records; an empty map returns true and writes nothing |

## Left out

- Movement, camera, rotation of the clone (`RotatePos`/`RotateNeg`), line traces, sweeps and overlaps (`HighlightInteraction`, `CheckReleaseArea`, `CreateHighlightStack`) are engine physics and float math. Their results enter the model only as inputs (the release hit, the trace hit, the highlighted root and stacks).
- Spawning, destroying, colouring, hiding, attaching and detaching actors, and impulses, are left out. A clone is recorded by the id of the actor it copies, and clone visibility is one flag.
- The newer `ToggleCrouch` with `SmoothCrouch`/`SmoothStandUp` is left out: it is timer-driven capsule animation.
- `FRGrasp::Update` and `GetStateAsString` are not modelled. RGrasp.cpp is not part of this model, so the model assumes the following:
  - `BlockedFingers` holds no finger twice (`AddUnique`/`Remove` semantics);
  - a new grasp starts opened with nothing blocked.
- ForceFileWriter.h, which declares `FLogInfo` and the hand-force arrays, is not part of this model. The field names follow their uses in ForceFileWriter.cpp.
- `FFileHelper::SaveStringToFile`, `FString::SanitizeFloat` and the `UEnum` lookup are foreign calls. They are modelled as an append that may fail (`accepts`), an opaque formatter (`fmt`) and an optional name function.
- Floats are reals: rounding, overflow and NaN are not modelled. The scalar controller's NaN test is an input flag.
- Pid3dControl.Pid3d.Update: the bounds are stated only for ordered limits (OutMin <= OutMax). With a zero time step the zero vector is returned even when it lies outside the limits, as in the code.
- PidControl.Pid.Update: with a zero time step or a NaN error it returns 0 even when 0 lies outside [OutMin, OutMax], as in the code.
- `FString` case folding covers ASCII letters only.
- Order: the iteration orders of `TActorIterator` and `TMap` are not known. They are the order of the given sequences.
- Logging (`UE_LOG`) is left out.

## Findings

| source | as written | input that shows it | evidently intended | confidence | as-written member | corrected member |
|---|---|---|---|---|---|---|
| Source/RobCoG/Control/RPid3d.h:84-85 | the lower clamp of Y and Z tests `Out.X < OutMin` | Out = (0, -5, 0), OutMax = 1, OutMin = -1 returns Y = -5, below OutMin; Out = (-5, 0, 0) moves the in-range Y = 0 to -1 | each component clamped against its own value, as the comment at line 81 says | not executed | Pid3dControl.AsWrittenLetsYBelowMin | Pid3dControl.PerComponentInRange |

`Pid3dControl.Pid3d.Update` follows the code as written; `Pid3dControl.ClampPerComponent` is the corrected clamp, and `Pid3dControl.ClampsAgree` says when the two coincide.
