/**
 * The desktop interaction state machine of the newer `ARWebCharacter`
 * (Player/RWebCharacter.cpp): the interaction tag registry, the hand
 * selection, the rotation axis, collecting and releasing items, opening
 * furniture, and the highlight and clone bookkeeping.
 *
 * Actors are opaque ids and a null actor pointer is `None`. Engine queries
 * (whether the release trace hit something) are inputs. A clone is recorded
 * by the id of the actor it copies; spawning, materials, visibility of single
 * actors, attachment and physics are not modelled.
 */
module WebInteraction {
  import opened Wrappers
  import opened Actors
  import opened FString
  import opened InteractiveTags

  /** `ESelectedHand`. */
  datatype Hand = Right | Left | Both

  /** `EItemInteraction`. */
  datatype Interaction = Pickable | Openable | TwoHandsPickable | TwoHandsOpenable

  /** `EItemStackable`. */
  datatype Stackable = SameType | Mixed | Tray

  function InteractionName(i: Interaction): string
  {
    match i
    case Pickable => "Pickable"
    case Openable => "Openable"
    case TwoHandsPickable => "TwoHandsPickable"
    case TwoHandsOpenable => "TwoHandsOpenable"
  }

  function StackableName(k: Stackable): string
  {
    match k
    case SameType => "SameType"
    case Mixed => "Mixed"
    case Tray => "Tray"
  }

  /**
   * The interaction values the tag parser accepts: every kind by its display
   * name except `TwoHandsOpenable`, which it does not recognise.
   */
  function ParseInteraction(v: string): (r: Option<Interaction>)
    ensures r.Some? ==> InteractionName(r.value) == v && r.value != TwoHandsOpenable
    ensures r.None? ==> forall i :: i != TwoHandsOpenable ==> InteractionName(i) != v
  {
    if v == "Openable" then Some(Openable)
    else if v == "Pickable" then Some(Pickable)
    else if v == "TwoHandsPickable" then Some(TwoHandsPickable)
    else None
  }

  /** The stackable values the tag parser accepts: all three by their display name. */
  function ParseStackable(v: string): (r: Option<Stackable>)
    ensures r.Some? ==> StackableName(r.value) == v
    ensures r.None? ==> forall k :: StackableName(k) != v
  {
    if v == "SameType" then Some(SameType)
    else if v == "Mixed" then Some(Mixed)
    else if v == "Tray" then Some(Tray)
    else None
  }

  // ----- The interaction registry -----

  /** The three maps `InitInteractiveItems` fills. */
  datatype Registry = Registry(
    interactive: map<ActorId, Interaction>,
    stackable: map<ActorId, Stackable>,
    openState: map<ActorId, bool>)

  /**
   * One "Key,Val" entry of an actor's interactive tag. `Interaction` entries
   * record the kind (and, for furniture, a closed state); `Stackable` entries
   * record the stack kind; anything else records nothing.
   */
  function ApplyEntry(reg: Registry, actor: ActorId, entry: string): Registry
  {
    var (key, val) := Split(entry, ',');
    if key == "Interaction" then
      match ParseInteraction(val)
      case None => reg
      case Some(i) =>
        reg.(interactive := reg.interactive[actor := i],
             openState := if i == Openable then reg.openState[actor := false] else reg.openState)
    else if key == "Stackable" then
      match ParseStackable(val)
      case None => reg
      case Some(k) => reg.(stackable := reg.stackable[actor := k])
    else reg
  }

  /** The entries of one tag, applied in order. */
  function ApplyEntries(reg: Registry, actor: ActorId, entries: seq<string>): Registry
  {
    if entries == [] then reg
    else ApplyEntry(ApplyEntries(reg, actor, entries[..|entries| - 1]), actor, entries[|entries| - 1])
  }

  /** One actor: the entries of its first interactive tag, if it has one. */
  function ApplyActor(reg: Registry, a: TaggedActor): Registry
  {
    match InteractiveEntries(a.tags)
    case None => reg
    case Some(entries) => ApplyEntries(reg, a.id, entries)
  }

  /** All actors, in the order the actor iterator visits them. */
  function ApplyActors(reg: Registry, actors: seq<TaggedActor>): Registry
  {
    if actors == [] then reg
    else ApplyActor(ApplyActors(reg, actors[..|actors| - 1]), actors[|actors| - 1])
  }

  /**
   * An `Interaction,Val` entry records the kind `Val` names, replacing any
   * earlier one, and marks `Openable` furniture closed; an unknown value
   * records nothing. Stack kinds are untouched.
   */
  lemma InteractionEntryRecords(reg: Registry, actor: ActorId, v: string)
    ensures var r := ApplyEntry(reg, actor, "Interaction," + v);
      r.stackable == reg.stackable &&
      (ParseInteraction(v).Some? ==> r.interactive == reg.interactive[actor := ParseInteraction(v).value]) &&
      (ParseInteraction(v).None? ==> r.interactive == reg.interactive) &&
      r.openState == (if v == "Openable" then reg.openState[actor := false] else reg.openState)
  {
    assert "Interaction," + v == "Interaction" + [','] + v;
    SplitRoundTrip("Interaction", ',', v);
  }

  /**
   * A `Stackable,Val` entry records the stack kind `Val` names, replacing any
   * earlier one; an unknown value records nothing. Interaction kinds and
   * opened states are untouched.
   */
  lemma StackableEntryRecords(reg: Registry, actor: ActorId, v: string)
    ensures var r := ApplyEntry(reg, actor, "Stackable," + v);
      r.interactive == reg.interactive && r.openState == reg.openState &&
      (ParseStackable(v).Some? ==> r.stackable == reg.stackable[actor := ParseStackable(v).value]) &&
      (ParseStackable(v).None? ==> r.stackable == reg.stackable)
  {
    assert "Stackable," + v == "Stackable" + [','] + v;
    SplitRoundTrip("Stackable", ',', v);
  }

  /** An entry with any other key, or with no comma at all, records nothing. */
  lemma UnrecognisedEntryRecordsNothing(reg: Registry, actor: ActorId, key: string, v: string)
    requires ',' !in key && key != "Interaction" && key != "Stackable"
    ensures ApplyEntry(reg, actor, key + "," + v) == reg
  {
    assert key + "," + v == key + [','] + v;
    SplitRoundTrip(key, ',', v);
  }

  lemma EntryWithoutCommaRecordsNothing(reg: Registry, actor: ActorId, entry: string)
    requires ',' !in entry
    ensures ApplyEntry(reg, actor, entry) == reg
  {
  }

  /** Entries of one actor's tag touch no other actor's records. */
  lemma {:induction false} ApplyEntriesOnlyTouchesActor(reg: Registry, actor: ActorId, entries: seq<string>, other: ActorId)
    requires other != actor
    ensures var r := ApplyEntries(reg, actor, entries);
      (other in r.interactive <==> other in reg.interactive) &&
      (other in r.interactive ==> r.interactive[other] == reg.interactive[other]) &&
      (other in r.stackable <==> other in reg.stackable) &&
      (other in r.stackable ==> r.stackable[other] == reg.stackable[other]) &&
      (other in r.openState <==> other in reg.openState) &&
      (other in r.openState ==> r.openState[other] == reg.openState[other])
    decreases |entries|
  {
    if entries != [] {
      ApplyEntriesOnlyTouchesActor(reg, actor, entries[..|entries| - 1], other);
    }
  }

  /** Records are only ever added or replaced, never removed. */
  lemma {:induction false} ApplyActorsOnlyAdds(reg: Registry, actors: seq<TaggedActor>)
    ensures var r := ApplyActors(reg, actors);
      reg.interactive.Keys <= r.interactive.Keys && reg.stackable.Keys <= r.stackable.Keys &&
      reg.openState.Keys <= r.openState.Keys
    decreases |actors|
  {
    if actors != [] {
      ApplyActorsOnlyAdds(reg, actors[..|actors| - 1]);
      var mid := ApplyActors(reg, actors[..|actors| - 1]);
      var a := actors[|actors| - 1];
      if InteractiveEntries(a.tags).Some? {
        ApplyEntriesOnlyAdds(mid, a.id, InteractiveEntries(a.tags).value);
      }
    }
  }

  lemma {:induction false} ApplyEntriesOnlyAdds(reg: Registry, actor: ActorId, entries: seq<string>)
    ensures var r := ApplyEntries(reg, actor, entries);
      reg.interactive.Keys <= r.interactive.Keys && reg.stackable.Keys <= r.stackable.Keys &&
      reg.openState.Keys <= r.openState.Keys
    decreases |entries|
  {
    if entries != [] {
      ApplyEntriesOnlyAdds(reg, actor, entries[..|entries| - 1]);
    }
  }

  /** An actor's tags after its first interactive tag are never read. */
  lemma LaterTagsOfActorIgnored(reg: Registry, id: ActorId, tags: seq<string>, more: seq<string>)
    requires FirstInteractiveTag(tags) < |tags|
    ensures ApplyActor(reg, TaggedActor(id, tags + more)) == ApplyActor(reg, TaggedActor(id, tags))
  {
    LaterTagsIgnored(tags, more);
  }

  /** An actor whose only tag is a well-formed interactive tag gets exactly its entries applied. */
  lemma TaggedActorRecords(reg: Registry, id: ActorId, head: string, entries: seq<string>)
    requires EqualsIgnoreCase(head, InteractivePrefix)
    requires forall k :: 0 <= k < |entries| ==> entries[k] != [] && ';' !in entries[k]
    ensures ApplyActor(reg, TaggedActor(id, [head + Join(entries, ';')])) == ApplyEntries(reg, id, entries)
  {
    InteractiveTagRoundTrip(head, entries);
  }

  // ----- Small pure rules -----

  /**
   * `SwitchRotAxis` without a stack: the `uint8` index is incremented and
   * wraps to 0 past 2.
   */
  function NextRotAxis(i: nat): (r: nat)
    requires i < 256
    ensures r <= 2
    ensures i <= 2 ==> r == (i + 1) % 3
  {
    var j := (i + 1) % 256;
    if j > 2 then 0 else j
  }

  /** Three presses of the axis switch bring the axis back. */
  lemma RotAxisCycle(i: nat)
    requires i <= 2
    ensures NextRotAxis(NextRotAxis(NextRotAxis(i))) == i
  {
  }

  /**
   * `SwitchHands`' choice of the next hand from which hands hold an item;
   * `None` when it returns without switching.
   */
  function SwitchedHand(h: Hand, held: set<Hand>): (r: Option<Hand>)
  {
    match h
    case Right => Some(Left)
    case Left => if Left !in held && Right !in held then Some(Both) else Some(Right)
    case Both => if Both !in held then Some(Right) else None
  }

  /**
   * The hand rules: both hands are only ever selected when neither single
   * hand holds an item, `Both` is only left when it holds nothing, and a
   * switch always lands on a different hand: Right goes to Left, Left to Both
   * when neither single hand holds an item and to Right otherwise, and an
   * empty Both to Right.
   */
  lemma SwitchedHandRules(h: Hand, held: set<Hand>)
    ensures SwitchedHand(h, held) == Some(Both) ==> Left !in held && Right !in held
    ensures h == Both ==> (SwitchedHand(h, held).Some? <==> Both !in held)
    ensures h != Both ==> SwitchedHand(h, held).Some?
    ensures SwitchedHand(h, held).Some? ==> SwitchedHand(h, held).value != h
    ensures h == Right ==> SwitchedHand(h, held) == Some(Left)
    ensures h == Left && Left !in held && Right !in held ==> SwitchedHand(h, held) == Some(Both)
    ensures h == Left && (Left in held || Right in held) ==> SwitchedHand(h, held) == Some(Right)
    ensures h == Both && Both !in held ==> SwitchedHand(h, held) == Some(Right)
  {
  }

  /** With empty hands the switch cycles Right, Left, Both and back to Right. */
  lemma EmptyHandedCycle(h: Hand)
    ensures var h1 := SwitchedHand(h, {}).value;
      var h2 := SwitchedHand(h1, {}).value;
      SwitchedHand(h2, {}) == Some(h)
  {
  }

  /** `ManipulateActor`'s flip of one opened flag. */
  function Toggle(m: map<ActorId, bool>, a: ActorId): (r: map<ActorId, bool>)
    requires a in m
    ensures r.Keys == m.Keys
    ensures r[a] == !m[a]
    ensures forall b :: b in m && b != a ==> r[b] == m[b]
  {
    m[a := !m[a]]
  }

  /** Opening then closing (or closing then opening) restores every flag. */
  lemma ToggleTwice(m: map<ActorId, bool>, a: ActorId)
    requires a in m
    ensures Toggle(Toggle(m, a), a) == m
  {
    var r := Toggle(Toggle(m, a), a);
    assert r.Keys == m.Keys;
    forall b | b in m ensures r[b] == m[b] {
    }
  }

  // ----- The character's state and its transitions -----

  /** Every field of the character the interaction logic reads or writes. */
  datatype CharacterState = CharacterState(
    reg: Registry,
    hand: Hand,
    handToRootItem: map<Hand, ActorId>,
    attachedStack: seq<ActorId>,
    highlightedRoot: Option<ActorId>,
    highlightedStack: seq<ActorId>,
    highlightedTrayStack: seq<ActorId>,
    cloneRoot: Option<ActorId>,
    cloneStack: seq<ActorId>,
    isGreen: bool,
    isCloneVisible: bool,
    rotAxisIndex: nat)

  /**
   * What the methods keep: the axis index is one of the three axes, and there
   * are no stacked clones without a clone root.
   */
  predicate ValidState(s: CharacterState)
  {
    s.rotAxisIndex <= 2 && (s.cloneRoot.None? ==> s.cloneStack == [])
  }

  function RemoveHighlightsOf(s: CharacterState): CharacterState
  {
    s.(highlightedRoot := None, highlightedStack := [], highlightedTrayStack := [])
  }

  /** The stacked clones go only when there is a clone root; the axis always resets. */
  function RemoveClonesOf(s: CharacterState): CharacterState
  {
    s.(cloneStack := if s.cloneRoot.Some? then [] else s.cloneStack, rotAxisIndex := 0)
  }

  /** Old clones removed, a hidden red clone of `root` and one clone per attached item. */
  function CreateClonesOf(s: CharacterState, root: ActorId): CharacterState
  {
    var t := RemoveClonesOf(s);
    t.(cloneRoot := Some(root), cloneStack := t.cloneStack + t.attachedStack, isCloneVisible := false, isGreen := false)
  }

  function SwitchRotAxisOf(s: CharacterState): CharacterState
    requires s.rotAxisIndex < 256
  {
    s.(rotAxisIndex := if |s.cloneStack| > 0 then 0 else NextRotAxis(s.rotAxisIndex))
  }

  function SwitchHandsOf(s: CharacterState): CharacterState
  {
    match SwitchedHand(s.hand, s.handToRootItem.Keys)
    case None => s
    case Some(h) =>
      var t := RemoveClonesOf(RemoveHighlightsOf(s.(hand := h)));
      if h in t.handToRootItem then CreateClonesOf(t, t.handToRootItem[h]) else t
  }

  /** The stack carried off with both hands: the highlighted stack, else the tray's. */
  function CollectedStack(s: CharacterState): seq<ActorId>
  {
    if s.hand != Both then s.attachedStack
    else if |s.highlightedStack| > 0 then s.highlightedStack
    else if |s.highlightedTrayStack| > 0 then s.highlightedTrayStack
    else s.attachedStack
  }

  function CollectOf(s: CharacterState): CharacterState
    requires s.highlightedRoot.Some?
  {
    var root := s.highlightedRoot.value;
    var t := CreateClonesOf(s.(attachedStack := CollectedStack(s)), root);
    RemoveHighlightsOf(t.(handToRootItem := t.handToRootItem[s.hand := root]))
  }

  /** A release happens only on a valid blocking hit with a green clone. */
  function ReleaseOf(s: CharacterState, hitValid: bool): CharacterState
  {
    if hitValid && s.isGreen then
      RemoveClonesOf(s.(handToRootItem := s.handToRootItem - {s.hand}, attachedStack := []))
    else s
  }

  function ManipulateOf(s: CharacterState): CharacterState
  {
    if s.highlightedRoot.Some? && s.highlightedRoot.value in s.reg.openState then
      s.(reg := s.reg.(openState := Toggle(s.reg.openState, s.highlightedRoot.value)))
    else s
  }

  function SelectOf(s: CharacterState, hitValid: bool): CharacterState
  {
    if s.hand in s.handToRootItem then ReleaseOf(s, hitValid)
    else if s.highlightedRoot.Some? && s.highlightedRoot.value in s.reg.interactive then
      match s.reg.interactive[s.highlightedRoot.value]
      case Pickable => CollectOf(s)
      case Openable => ManipulateOf(s)
      case _ => s
    else s
  }

  // ----- What the transitions guarantee -----

  /** Every transition keeps the state valid. */
  lemma TransitionsKeepValid(s: CharacterState, hitValid: bool)
    requires ValidState(s)
    ensures ValidState(SwitchRotAxisOf(s))
    ensures ValidState(SwitchHandsOf(s))
    ensures s.highlightedRoot.Some? ==> ValidState(CollectOf(s))
    ensures ValidState(ReleaseOf(s, hitValid))
    ensures ValidState(ManipulateOf(s))
    ensures ValidState(SelectOf(s, hitValid))
  {
  }

  /**
   * Collecting puts the highlighted root in the selected hand, clears every
   * highlight, and leaves a hidden red clone of the root with one clone per
   * attached item; nothing else in the hand map changes.
   */
  lemma CollectOutcome(s: CharacterState)
    requires ValidState(s) && s.highlightedRoot.Some?
    ensures var r := CollectOf(s);
      r.handToRootItem == s.handToRootItem[s.hand := s.highlightedRoot.value] &&
      r.highlightedRoot.None? && r.highlightedStack == [] && r.highlightedTrayStack == [] &&
      r.cloneRoot == s.highlightedRoot && r.cloneStack == r.attachedStack &&
      !r.isGreen && !r.isCloneVisible && r.rotAxisIndex == 0 &&
      r.hand == s.hand && r.reg == s.reg
    ensures s.hand != Both ==> CollectOf(s).attachedStack == s.attachedStack
  {
  }

  /**
   * A collected item can be put down again: after collecting with a free hand
   * and a green clone on a valid hit, releasing gives back the original hand
   * map and leaves nothing attached.
   */
  lemma CollectThenRelease(s: CharacterState)
    requires ValidState(s) && s.highlightedRoot.Some? && s.hand !in s.handToRootItem
    ensures var c := CollectOf(s);
      var r := ReleaseOf(c.(isGreen := true), true);
      r.handToRootItem == s.handToRootItem && r.attachedStack == [] && r.cloneStack == [] && r.rotAxisIndex == 0
  {
    var c := CollectOf(s);
    assert c.handToRootItem - {s.hand} == s.handToRootItem;
  }

  /**
   * A release that is refused changes nothing; one that happens frees only the
   * selected hand, empties the attached stack, removes the stacked clones and
   * resets the axis, and leaves every other part of the state as it was.
   */
  lemma ReleaseOutcome(s: CharacterState, hitValid: bool)
    requires ValidState(s)
    ensures !(hitValid && s.isGreen) ==> ReleaseOf(s, hitValid) == s
    ensures hitValid && s.isGreen ==>
      var r := ReleaseOf(s, hitValid);
      r.handToRootItem == s.handToRootItem - {s.hand} && r.attachedStack == [] && r.cloneStack == [] && r.rotAxisIndex == 0 &&
      r.reg == s.reg && r.hand == s.hand && r.cloneRoot == s.cloneRoot && r.isGreen == s.isGreen &&
      r.isCloneVisible == s.isCloneVisible && r.highlightedRoot == s.highlightedRoot &&
      r.highlightedStack == s.highlightedStack && r.highlightedTrayStack == s.highlightedTrayStack
  {
  }

  /**
   * Selecting with an occupied hand never picks anything up, and selecting
   * with a free hand never puts anything down.
   */
  lemma SelectDirection(s: CharacterState, hitValid: bool)
    requires ValidState(s)
    ensures s.hand in s.handToRootItem ==> SelectOf(s, hitValid).handToRootItem.Keys <= s.handToRootItem.Keys
    ensures s.hand !in s.handToRootItem ==> s.handToRootItem.Keys <= SelectOf(s, hitValid).handToRootItem.Keys
  {
  }

  /**
   * Switching hands with `Both` holding an item changes nothing; any actual
   * switch clears the highlights and resets the axis, and the selected hand
   * has a clone of its item exactly when it holds one.
   */
  lemma SwitchHandsOutcome(s: CharacterState)
    requires ValidState(s)
    ensures s.hand == Both && Both in s.handToRootItem ==> SwitchHandsOf(s) == s
    ensures !(s.hand == Both && Both in s.handToRootItem) ==>
      var r := SwitchHandsOf(s);
      r.hand != s.hand && r.handToRootItem == s.handToRootItem &&
      r.highlightedRoot.None? && r.highlightedStack == [] && r.highlightedTrayStack == [] &&
      r.rotAxisIndex == 0 &&
      (r.hand in r.handToRootItem ==> r.cloneRoot == Some(r.handToRootItem[r.hand]) && r.cloneStack == r.attachedStack) &&
      (r.hand !in r.handToRootItem ==> r.cloneStack == [])
  {
  }

  /** Opening furniture twice leaves every opened flag as it was. */
  lemma ManipulateTwice(s: CharacterState)
    ensures ManipulateOf(ManipulateOf(s)).reg == s.reg
  {
    if s.highlightedRoot.Some? && s.highlightedRoot.value in s.reg.openState {
      ToggleTwice(s.reg.openState, s.highlightedRoot.value);
    }
  }

  // ----- The character -----

  /** `ARWebCharacter`: the fields the interaction logic keeps. */
  class WebCharacter {
    var InteractiveActors: map<ActorId, Interaction>
    var StackableActors: map<ActorId, Stackable>
    var InteractiveActorsToOpenedState: map<ActorId, bool>
    var SelectedHand: Hand
    var HandToRootItem: map<Hand, ActorId>
    var AttachedStack: seq<ActorId>
    var HighlightedRoot: Option<ActorId>
    var HighlightedStack: seq<ActorId>
    var HighlightedTrayStack: seq<ActorId>
    var CloneRoot: Option<ActorId>
    var CloneStack: seq<ActorId>
    var bIsGreen: bool
    var bIsCloneVisible: bool
    var RotAxisIndex: nat

    function Records(): Registry
      reads this
    {
      Registry(InteractiveActors, StackableActors, InteractiveActorsToOpenedState)
    }

    function Snapshot(): CharacterState
      reads this
    {
      CharacterState(Records(), SelectedHand, HandToRootItem, AttachedStack, HighlightedRoot, HighlightedStack,
        HighlightedTrayStack, CloneRoot, CloneStack, bIsGreen, bIsCloneVisible, RotAxisIndex)
    }

    predicate Valid()
      reads this
    {
      ValidState(Snapshot())
    }

    /** Right hand selected, clone not green and visible, axis 0, nothing registered, held or highlighted. */
    constructor ()
      ensures Valid()
      ensures SelectedHand == Right && !bIsGreen && bIsCloneVisible && RotAxisIndex == 0
      ensures Records() == Registry(map[], map[], map[])
      ensures HandToRootItem == map[] && AttachedStack == []
      ensures HighlightedRoot.None? && HighlightedStack == [] && HighlightedTrayStack == []
      ensures CloneRoot.None? && CloneStack == []
    {
      InteractiveActors := map[];
      StackableActors := map[];
      InteractiveActorsToOpenedState := map[];
      SelectedHand := Right;
      HandToRootItem := map[];
      AttachedStack := [];
      HighlightedRoot := None;
      HighlightedStack := [];
      HighlightedTrayStack := [];
      CloneRoot := None;
      CloneStack := [];
      bIsGreen := false;
      bIsCloneVisible := true;
      RotAxisIndex := 0;
    }

    /** One "Key,Val" entry of an interactive tag. */
    method AddEntry(actor: ActorId, entry: string)
      modifies this`InteractiveActors, this`StackableActors, this`InteractiveActorsToOpenedState
      ensures Records() == ApplyEntry(old(Records()), actor, entry)
    {
      var (key, val) := Split(entry, ',');
      if key == "Interaction" {
        if val == "Openable" {
          InteractiveActors := InteractiveActors[actor := Openable];
          InteractiveActorsToOpenedState := InteractiveActorsToOpenedState[actor := false];
        } else if val == "Pickable" {
          InteractiveActors := InteractiveActors[actor := Pickable];
        } else if val == "TwoHandsPickable" {
          InteractiveActors := InteractiveActors[actor := TwoHandsPickable];
        }
      } else if key == "Stackable" {
        if val == "SameType" {
          StackableActors := StackableActors[actor := SameType];
        } else if val == "Mixed" {
          StackableActors := StackableActors[actor := Mixed];
        } else if val == "Tray" {
          StackableActors := StackableActors[actor := Tray];
        }
      }
    }

    /** The entries of one interactive tag, in order. */
    method AddEntries(actor: ActorId, entries: seq<string>)
      modifies this`InteractiveActors, this`StackableActors, this`InteractiveActorsToOpenedState
      ensures Records() == ApplyEntries(old(Records()), actor, entries)
    {
      var n := 0;
      while n < |entries|
        invariant 0 <= n <= |entries|
        invariant Records() == ApplyEntries(old(Records()), actor, entries[..n])
      {
        assert entries[..n + 1][..n] == entries[..n];
        AddEntry(actor, entries[n]);
        n := n + 1;
      }
      assert entries[..|entries|] == entries;
    }

    /** Scans one actor's tags up to the first interactive one and records its entries. */
    method AddActor(a: TaggedActor)
      modifies this`InteractiveActors, this`StackableActors, this`InteractiveActorsToOpenedState
      ensures Records() == ApplyActor(old(Records()), a)
    {
      var tags := a.tags;
      var j := 0;
      while j < |tags|
        invariant 0 <= j <= |tags|
        invariant forall k :: 0 <= k < j ==> !IsInteractiveTag(tags[k])
        invariant Records() == old(Records())
      {
        var stripped := RemoveFromStart(tags[j], InteractivePrefix);
        if stripped.Some? {
          FirstInteractiveTagUnique(tags, j);
          AddEntries(a.id, ParseIntoArray(stripped.value, ';'));
          return;
        }
        j := j + 1;
      }
    }

    /** Every actor in iteration order, each through its first interactive tag. */
    method InitInteractiveItems(actors: seq<TaggedActor>)
      modifies this`InteractiveActors, this`StackableActors, this`InteractiveActorsToOpenedState
      ensures Records() == ApplyActors(old(Records()), actors)
    {
      var i := 0;
      while i < |actors|
        invariant 0 <= i <= |actors|
        invariant Records() == ApplyActors(old(Records()), actors[..i])
      {
        assert actors[..i + 1][..i] == actors[..i];
        AddActor(actors[i]);
        i := i + 1;
      }
      assert actors[..|actors|] == actors;
    }

    /** Resets the axis when a stack is held; otherwise moves to the next axis. */
    method SwitchRotAxis()
      requires Valid()
      modifies this`RotAxisIndex
      ensures Valid()
      ensures Snapshot() == SwitchRotAxisOf(old(Snapshot()))
    {
      if |CloneStack| > 0 {
        RotAxisIndex := 0;
        return;
      }
      RotAxisIndex := (RotAxisIndex + 1) % 256;
      if RotAxisIndex > 2 {
        RotAxisIndex := 0;
      }
    }

    method RemoveHighlights()
      modifies this`HighlightedRoot, this`HighlightedStack, this`HighlightedTrayStack
      ensures Snapshot() == RemoveHighlightsOf(old(Snapshot()))
    {
      if HighlightedRoot.Some? {
        HighlightedRoot := None;
      }
      if |HighlightedStack| > 0 {
        HighlightedStack := [];
      }
      if |HighlightedTrayStack| > 0 {
        HighlightedTrayStack := [];
      }
    }

    method RemoveClones()
      modifies this`CloneStack, this`RotAxisIndex
      ensures Snapshot() == RemoveClonesOf(old(Snapshot()))
    {
      if CloneRoot.Some? {
        CloneStack := [];
      }
      RotAxisIndex := 0;
    }

    method CreateClones(root: ActorId)
      modifies this`CloneRoot, this`CloneStack, this`RotAxisIndex, this`bIsCloneVisible, this`bIsGreen
      ensures Snapshot() == CreateClonesOf(old(Snapshot()), root)
    {
      RemoveClones();
      CloneRoot := Some(root);
      var k := 0;
      ghost var mid := Snapshot();
      while k < |AttachedStack|
        invariant 0 <= k <= |AttachedStack|
        invariant Snapshot() == mid.(cloneStack := mid.cloneStack + AttachedStack[..k])
      {
        CloneStack := CloneStack + [AttachedStack[k]];
        assert AttachedStack[..k + 1] == AttachedStack[..k] + [AttachedStack[k]];
        k := k + 1;
      }
      assert AttachedStack[..|AttachedStack|] == AttachedStack;
      bIsCloneVisible := false;
      bIsGreen := false;
    }

    method SwitchHands()
      modifies this
      ensures Snapshot() == SwitchHandsOf(old(Snapshot()))
    {
      if SelectedHand == Right {
        SelectedHand := Left;
      } else if SelectedHand == Left {
        if Left !in HandToRootItem && Right !in HandToRootItem {
          SelectedHand := Both;
        } else {
          SelectedHand := Right;
        }
      } else {
        if Both !in HandToRootItem {
          SelectedHand := Right;
        } else {
          return;
        }
      }
      RemoveHighlights();
      RemoveClones();
      if SelectedHand in HandToRootItem {
        CreateClones(HandToRootItem[SelectedHand]);
      }
    }

    method CollectActor()
      requires HighlightedRoot.Some?
      modifies this
      ensures Snapshot() == CollectOf(old(Snapshot()))
    {
      var root := HighlightedRoot.value;
      if SelectedHand == Both {
        if |HighlightedStack| > 0 {
          AttachedStack := HighlightedStack;
        } else if |HighlightedTrayStack| > 0 {
          AttachedStack := HighlightedTrayStack;
        }
      }
      CreateClones(root);
      HandToRootItem := HandToRootItem[SelectedHand := root];
      RemoveHighlights();
    }

    /** `hitValid` is whether the release trace gave a valid blocking hit. */
    method ReleaseActor(hitValid: bool)
      requires SelectedHand in HandToRootItem
      modifies this
      ensures Snapshot() == ReleaseOf(old(Snapshot()), hitValid)
    {
      if hitValid && bIsGreen {
        HandToRootItem := HandToRootItem - {SelectedHand};
        if |AttachedStack| > 0 {
          AttachedStack := [];
        }
        RemoveClones();
      }
    }

    method ManipulateActor()
      modifies this`InteractiveActorsToOpenedState
      ensures Snapshot() == ManipulateOf(old(Snapshot()))
    {
      if HighlightedRoot.Some? && HighlightedRoot.value in InteractiveActorsToOpenedState {
        var a := HighlightedRoot.value;
        if InteractiveActorsToOpenedState[a] {
          InteractiveActorsToOpenedState := InteractiveActorsToOpenedState[a := false];
        } else {
          InteractiveActorsToOpenedState := InteractiveActorsToOpenedState[a := true];
        }
      }
    }

    method OnSelect(hitValid: bool)
      modifies this
      ensures Snapshot() == SelectOf(old(Snapshot()), hitValid)
    {
      if SelectedHand in HandToRootItem {
        ReleaseActor(hitValid);
      } else if HighlightedRoot.Some? {
        if HighlightedRoot.value in InteractiveActors {
          var kind := InteractiveActors[HighlightedRoot.value];
          if kind == Pickable {
            CollectActor();
          } else if kind == Openable {
            ManipulateActor();
          }
        }
      }
    }
  }
}
