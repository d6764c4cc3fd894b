/**
 * The older desktop character `ARWebCharacter` (Control/RWebCharacter.cpp):
 * its own variant of the interaction tag parser, an unconditional cycle of
 * hands, the crouch speed factor, picking items up and putting them down, and
 * the rule that decides which actor is highlighted.
 *
 * Actors are opaque ids and a null actor pointer is `None`. Whether the
 * character can crouch and what the line trace hit are inputs.
 */
module LegacyWebInteraction {
  import opened Wrappers
  import opened Actors
  import opened FString
  import opened InteractiveTags

  /** `ESelectedHand`. */
  datatype Hand = Right | Left | Both

  /** `EItemInteraction` of the older character. */
  datatype Interaction = Pickable | Openable | PickableWithTwoHands | OpenableWithTwoHands

  function InteractionName(i: Interaction): string
  {
    match i
    case Pickable => "Pickable"
    case Openable => "Openable"
    case PickableWithTwoHands => "PickableWithTwoHands"
    case OpenableWithTwoHands => "OpenableWithTwoHands"
  }

  /**
   * The interaction values this parser accepts: every kind by its display
   * name except `OpenableWithTwoHands`.
   */
  function ParseInteraction(v: string): (r: Option<Interaction>)
    ensures r.Some? ==> InteractionName(r.value) == v && r.value != OpenableWithTwoHands
    ensures r.None? ==> forall i :: i != OpenableWithTwoHands ==> InteractionName(i) != v
  {
    if v == "Openable" then Some(Openable)
    else if v == "Pickable" then Some(Pickable)
    else if v == "PickableWithTwoHands" then Some(PickableWithTwoHands)
    else None
  }

  // ----- The interaction registry -----

  /**
   * One "Key,Val" entry of an interactive tag. Only `Interaction` entries
   * record anything; `Stackable` entries are read and dropped.
   */
  function ApplyEntry(m: map<ActorId, Interaction>, actor: ActorId, entry: string): map<ActorId, Interaction>
  {
    var (key, val) := Split(entry, ',');
    if key == "Interaction" && ParseInteraction(val).Some? then m[actor := ParseInteraction(val).value]
    else m
  }

  function ApplyEntries(m: map<ActorId, Interaction>, actor: ActorId, entries: seq<string>): map<ActorId, Interaction>
  {
    if entries == [] then m
    else ApplyEntry(ApplyEntries(m, actor, entries[..|entries| - 1]), actor, entries[|entries| - 1])
  }

  function ApplyActor(m: map<ActorId, Interaction>, a: TaggedActor): map<ActorId, Interaction>
  {
    match InteractiveEntries(a.tags)
    case None => m
    case Some(entries) => ApplyEntries(m, a.id, entries)
  }

  function ApplyActors(m: map<ActorId, Interaction>, actors: seq<TaggedActor>): map<ActorId, Interaction>
  {
    if actors == [] then m
    else ApplyActor(ApplyActors(m, actors[..|actors| - 1]), actors[|actors| - 1])
  }

  /** An `Interaction,Val` entry records the kind `Val` names; an unknown value records nothing. */
  lemma InteractionEntryRecords(m: map<ActorId, Interaction>, actor: ActorId, v: string)
    ensures ParseInteraction(v).Some? ==> ApplyEntry(m, actor, "Interaction," + v) == m[actor := ParseInteraction(v).value]
    ensures ParseInteraction(v).None? ==> ApplyEntry(m, actor, "Interaction," + v) == m
  {
    assert "Interaction," + v == "Interaction" + [','] + v;
    SplitRoundTrip("Interaction", ',', v);
  }

  /** `Stackable` entries, whatever their value, record nothing. */
  lemma StackableEntryRecordsNothing(m: map<ActorId, Interaction>, actor: ActorId, v: string)
    ensures ApplyEntry(m, actor, "Stackable," + v) == m
  {
    assert "Stackable," + v == "Stackable" + [','] + v;
    SplitRoundTrip("Stackable", ',', v);
  }

  /** An actor whose only tag is a well-formed interactive tag gets exactly its entries applied. */
  lemma TaggedActorRecords(m: map<ActorId, Interaction>, id: ActorId, head: string, entries: seq<string>)
    requires EqualsIgnoreCase(head, InteractivePrefix)
    requires forall k :: 0 <= k < |entries| ==> entries[k] != [] && ';' !in entries[k]
    ensures ApplyActor(m, TaggedActor(id, [head + Join(entries, ';')])) == ApplyEntries(m, id, entries)
  {
    InteractiveTagRoundTrip(head, entries);
  }

  /** The parser never records `OpenableWithTwoHands`: a registry without it stays without it. */
  lemma {:induction false} NoOpenableWithTwoHands(m: map<ActorId, Interaction>, actors: seq<TaggedActor>)
    requires forall a :: a in m ==> m[a] != OpenableWithTwoHands
    ensures forall a :: a in ApplyActors(m, actors) ==> ApplyActors(m, actors)[a] != OpenableWithTwoHands
    decreases |actors|
  {
    if actors != [] {
      var mid := ApplyActors(m, actors[..|actors| - 1]);
      NoOpenableWithTwoHands(m, actors[..|actors| - 1]);
      var a := actors[|actors| - 1];
      if InteractiveEntries(a.tags).Some? {
        EntriesKeepNoOpenableWithTwoHands(mid, a.id, InteractiveEntries(a.tags).value);
      }
    }
  }

  lemma {:induction false} EntriesKeepNoOpenableWithTwoHands(m: map<ActorId, Interaction>, actor: ActorId, entries: seq<string>)
    requires forall a :: a in m ==> m[a] != OpenableWithTwoHands
    ensures forall a :: a in ApplyEntries(m, actor, entries) ==> ApplyEntries(m, actor, entries)[a] != OpenableWithTwoHands
    decreases |entries|
  {
    if entries != [] {
      EntriesKeepNoOpenableWithTwoHands(m, actor, entries[..|entries| - 1]);
    }
  }

  // ----- Pure rules -----

  /** `SwitchHands`: Right, Left, Both, Right, whatever the hands hold. */
  function NextHand(h: Hand): (r: Hand)
    ensures r != h
  {
    match h
    case Right => Left
    case Left => Both
    case Both => Right
  }

  /** Three switches bring back the hand that was selected. */
  lemma ThreeSwitchesRestore(h: Hand)
    ensures NextHand(NextHand(NextHand(h))) == h
  {
  }

  /** `ToggleCrouch`: half speed when crouching down, full speed when standing up. */
  function CrouchSpeed(canCrouch: bool): (r: real)
    ensures canCrouch <==> r == 0.5
    ensures !canCrouch <==> r == 1.0
  {
    if canCrouch then 0.5 else 1.0
  }

  /**
   * The highlight after a trace: the hit actor if it is an interactive static
   * mesh actor, and nothing otherwise.
   */
  function HighlightAfter(hit: Option<ActorId>, isStaticMesh: bool, interactive: map<ActorId, Interaction>): (r: Option<ActorId>)
    ensures r.Some? <==> hit.Some? && isStaticMesh && hit.value in interactive
    ensures r.Some? ==> r == hit
  {
    if hit.Some? && isStaticMesh && hit.value in interactive then hit else None
  }

  /** The same trace result twice in a row leaves the highlight where the first one put it. */
  lemma HighlightFollowsTrace(hit: Option<ActorId>, isStaticMesh: bool, interactive: map<ActorId, Interaction>)
    ensures var h := HighlightAfter(hit, isStaticMesh, interactive);
      h.Some? ==> HighlightAfter(h, true, interactive) == h
  {
  }

  // ----- The character's state and its transitions -----

  datatype CharacterState = CharacterState(
    interactive: map<ActorId, Interaction>,
    hand: Hand,
    handToItem: map<Hand, Option<ActorId>>,
    highlighted: Option<ActorId>)

  /**
   * `IteractWithItem`: a pickable item puts the *highlighted* actor (the
   * member, not the `item` argument) in the hand; anything else changes
   * nothing.
   */
  function InteractOf(s: CharacterState, hand: Hand, item: ActorId): CharacterState
  {
    if item in s.interactive && s.interactive[item] == Pickable then
      s.(handToItem := s.handToItem[hand := s.highlighted])
    else s
  }

  /** `OnSelect`: put down what the selected hand holds, else interact with the highlight. */
  function SelectOf(s: CharacterState): CharacterState
  {
    if s.hand in s.handToItem then s.(handToItem := s.handToItem - {s.hand})
    else if s.highlighted.Some? then InteractOf(s, s.hand, s.highlighted.value)
    else s
  }

  /**
   * Selecting with an occupied hand removes that hand's entry and no other;
   * selecting with a free hand never removes anything.
   */
  lemma SelectOutcome(s: CharacterState)
    ensures s.hand in s.handToItem ==>
      SelectOf(s).handToItem.Keys == s.handToItem.Keys - {s.hand} &&
      forall h :: h in SelectOf(s).handToItem ==> SelectOf(s).handToItem[h] == s.handToItem[h]
    ensures s.hand !in s.handToItem ==> s.handToItem.Keys <= SelectOf(s).handToItem.Keys
    ensures SelectOf(s).hand == s.hand && SelectOf(s).highlighted == s.highlighted
  {
  }

  /**
   * Picking up a highlighted pickable item and selecting again puts it down:
   * the hand map is back to what it was.
   */
  lemma PickUpThenPutDown(s: CharacterState)
    requires s.hand !in s.handToItem && s.highlighted.Some?
    requires s.highlighted.value in s.interactive && s.interactive[s.highlighted.value] == Pickable
    ensures SelectOf(s).handToItem == s.handToItem[s.hand := s.highlighted]
    ensures SelectOf(SelectOf(s)).handToItem == s.handToItem
  {
    var t := SelectOf(s);
    assert t.handToItem - {s.hand} == s.handToItem;
  }

  /** `IteractWithItem` stores the highlight even when it is asked about another item. */
  lemma InteractStoresHighlight(s: CharacterState, hand: Hand, item: ActorId)
    requires item in s.interactive && s.interactive[item] == Pickable
    requires s.highlighted != Some(item)
    ensures hand in InteractOf(s, hand, item).handToItem
    ensures InteractOf(s, hand, item).handToItem[hand] != Some(item)
  {
  }

  // ----- The character -----

  /** `ARWebCharacter` (older): the fields the interaction logic keeps. */
  class LegacyWebCharacter {
    var InteractiveActors: map<ActorId, Interaction>
    var SelectedHand: Hand
    var HandToItem: map<Hand, Option<ActorId>>
    var HighlightedActor: Option<ActorId>
    var SpeedFactor: real

    function Snapshot(): CharacterState
      reads this
    {
      CharacterState(InteractiveActors, SelectedHand, HandToItem, HighlightedActor)
    }

    /**
     * Right hand selected at full speed. Fields the constructor does not set
     * start zeroed: no registry, nothing held, nothing highlighted.
     */
    constructor ()
      ensures SelectedHand == Right && SpeedFactor == 1.0
      ensures InteractiveActors == map[] && HandToItem == map[] && HighlightedActor.None?
    {
      InteractiveActors := map[];
      SelectedHand := Right;
      HandToItem := map[];
      HighlightedActor := None;
      SpeedFactor := 1.0;
    }

    /** One "Key,Val" entry of an interactive tag. */
    method AddEntry(actor: ActorId, entry: string)
      modifies this`InteractiveActors
      ensures InteractiveActors == ApplyEntry(old(InteractiveActors), actor, entry)
    {
      var (key, val) := Split(entry, ',');
      if key == "Interaction" {
        if val == "Openable" {
          InteractiveActors := InteractiveActors[actor := Openable];
        } else if val == "Pickable" {
          InteractiveActors := InteractiveActors[actor := Pickable];
        } else if val == "PickableWithTwoHands" {
          InteractiveActors := InteractiveActors[actor := PickableWithTwoHands];
        }
      }
    }

    /** The entries of one interactive tag, in order. */
    method AddEntries(actor: ActorId, entries: seq<string>)
      modifies this`InteractiveActors
      ensures InteractiveActors == ApplyEntries(old(InteractiveActors), actor, entries)
    {
      var n := 0;
      while n < |entries|
        invariant 0 <= n <= |entries|
        invariant InteractiveActors == ApplyEntries(old(InteractiveActors), actor, entries[..n])
      {
        assert entries[..n + 1][..n] == entries[..n];
        AddEntry(actor, entries[n]);
        n := n + 1;
      }
      assert entries[..|entries|] == entries;
    }

    /** Scans one actor's tags up to the first interactive one and records its entries. */
    method AddActor(a: TaggedActor)
      modifies this`InteractiveActors
      ensures InteractiveActors == ApplyActor(old(InteractiveActors), a)
    {
      var tags := a.tags;
      var j := 0;
      while j < |tags|
        invariant 0 <= j <= |tags|
        invariant forall k :: 0 <= k < j ==> !IsInteractiveTag(tags[k])
        invariant InteractiveActors == old(InteractiveActors)
      {
        var stripped := RemoveFromStart(tags[j], InteractivePrefix);
        if stripped.Some? {
          FirstInteractiveTagUnique(tags, j);
          AddEntries(a.id, ParseIntoArray(stripped.value, ';'));
          return;
        }
        j := j + 1;
      }
    }

    /** Records the entries of every actor's first interactive tag. */
    method InitInteractiveItems(actors: seq<TaggedActor>)
      modifies this`InteractiveActors
      ensures InteractiveActors == ApplyActors(old(InteractiveActors), actors)
    {
      var i := 0;
      while i < |actors|
        invariant 0 <= i <= |actors|
        invariant InteractiveActors == ApplyActors(old(InteractiveActors), actors[..i])
      {
        assert actors[..i + 1][..i] == actors[..i];
        AddActor(actors[i]);
        i := i + 1;
      }
      assert actors[..|actors|] == actors;
    }

    /** `canCrouch` is the engine's `CanCrouch()`, false while already crouched. */
    method ToggleCrouch(canCrouch: bool)
      modifies this`SpeedFactor
      ensures SpeedFactor == CrouchSpeed(canCrouch)
    {
      if canCrouch {
        SpeedFactor := 0.5;
      } else {
        SpeedFactor := 1.0;
      }
    }

    method SwitchHands()
      modifies this`SelectedHand
      ensures SelectedHand == NextHand(old(SelectedHand))
    {
      if SelectedHand == Right {
        SelectedHand := Left;
      } else if SelectedHand == Left {
        SelectedHand := Both;
      } else {
        SelectedHand := Right;
      }
    }

    method OnSelect()
      modifies this`HandToItem
      ensures Snapshot() == SelectOf(old(Snapshot()))
    {
      if SelectedHand in HandToItem {
        HandToItem := HandToItem - {SelectedHand};
      } else if HighlightedActor.Some? {
        var _ := IteractWithItem(SelectedHand, HighlightedActor.value);
      }
    }

    /** Always reports success. */
    method IteractWithItem(hand: Hand, item: ActorId) returns (handled: bool)
      modifies this`HandToItem
      ensures handled
      ensures Snapshot() == InteractOf(old(Snapshot()), hand, item)
    {
      if item in InteractiveActors {
        var kind := InteractiveActors[item];
        if kind == Pickable {
          HandToItem := HandToItem[hand := HighlightedActor];
        }
      }
      return true;
    }

    /**
     * `hit` is the actor the trace hit and `isStaticMesh` whether it is a
     * static mesh actor.
     */
    method TraceHighlight(hit: Option<ActorId>, isStaticMesh: bool)
      modifies this`HighlightedActor
      ensures HighlightedActor == HighlightAfter(hit, isStaticMesh, InteractiveActors)
    {
      if hit.Some? && isStaticMesh {
        if hit.value in InteractiveActors {
          if HighlightedActor.None? {
            HighlightedActor := hit;
          } else if HighlightedActor == hit {
            return;
          } else {
            HighlightedActor := hit;
          }
        } else if HighlightedActor.Some? {
          HighlightedActor := None;
        }
      } else if HighlightedActor.Some? {
        HighlightedActor := None;
      }
    }
  }
}
