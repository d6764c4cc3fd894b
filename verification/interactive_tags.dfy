/**
 * The tag scan shared by both desktop characters' `InitInteractiveItems`:
 * the first tag of an actor that starts with "Interactive:" is stripped of
 * that prefix and cut at ';' into key-value entries; the scan then stops.
 */
module InteractiveTags {
  import opened Wrappers
  import opened FString

  const InteractivePrefix := "Interactive:"

  predicate IsInteractiveTag(tag: string)
  {
    RemoveFromStart(tag, InteractivePrefix).Some?
  }

  /** Position of the first interactive tag, or `|tags|` when there is none. */
  function FirstInteractiveTag(tags: seq<string>): (k: nat)
    ensures k <= |tags|
    ensures k < |tags| ==> IsInteractiveTag(tags[k])
    ensures forall j :: 0 <= j < k ==> !IsInteractiveTag(tags[j])
  {
    if tags == [] then 0
    else if IsInteractiveTag(tags[0]) then 0
    else 1 + FirstInteractiveTag(tags[1..])
  }

  /** The key-value entries of the first interactive tag, `None` when the actor has none. */
  function InteractiveEntries(tags: seq<string>): (r: Option<seq<string>>)
  {
    var k := FirstInteractiveTag(tags);
    if k < |tags| then Some(ParseIntoArray(RemoveFromStart(tags[k], InteractivePrefix).value, ';'))
    else None
  }

  /** The first interactive tag is the position the scan stops at. */
  lemma FirstInteractiveTagUnique(tags: seq<string>, k: nat)
    requires k < |tags| && IsInteractiveTag(tags[k])
    requires forall j :: 0 <= j < k ==> !IsInteractiveTag(tags[j])
    ensures FirstInteractiveTag(tags) == k
  {
  }

  /** Tags after the first interactive one are never read. */
  lemma LaterTagsIgnored(tags: seq<string>, more: seq<string>)
    requires FirstInteractiveTag(tags) < |tags|
    ensures InteractiveEntries(tags + more) == InteractiveEntries(tags)
  {
    var k := FirstInteractiveTag(tags);
    assert (tags + more)[k] == tags[k];
    forall j | 0 <= j < k ensures !IsInteractiveTag((tags + more)[j]) {
      assert (tags + more)[j] == tags[j];
    }
    FirstInteractiveTagUnique(tags + more, k);
  }

  /** Tags before the first interactive one contribute nothing. */
  lemma EarlierTagsIgnored(plain: seq<string>, tags: seq<string>)
    requires forall j :: 0 <= j < |plain| ==> !IsInteractiveTag(plain[j])
    ensures InteractiveEntries(plain + tags) == InteractiveEntries(tags)
  {
    var k := FirstInteractiveTag(tags);
    if k < |tags| {
      assert (plain + tags)[|plain| + k] == tags[k];
      forall j | 0 <= j < |plain| + k ensures !IsInteractiveTag((plain + tags)[j]) {
        if j < |plain| {
          assert (plain + tags)[j] == plain[j];
        } else {
          assert (plain + tags)[j] == tags[j - |plain|];
        }
      }
      FirstInteractiveTagUnique(plain + tags, |plain| + k);
    } else {
      forall j | 0 <= j < |plain + tags| ensures !IsInteractiveTag((plain + tags)[j]) {
        if j < |plain| {
          assert (plain + tags)[j] == plain[j];
        } else {
          assert (plain + tags)[j] == tags[j - |plain|];
        }
      }
    }
  }

  /**
   * A tag `Interactive:` + the entries joined with ';' (in any letter case for
   * the prefix) gives back exactly those entries.
   */
  lemma InteractiveTagRoundTrip(head: string, entries: seq<string>)
    requires EqualsIgnoreCase(head, InteractivePrefix)
    requires forall k :: 0 <= k < |entries| ==> entries[k] != [] && ';' !in entries[k]
    ensures InteractiveEntries([head + Join(entries, ';')]) == Some(entries)
  {
    RemoveFromStartAnyCase(head, Join(entries, ';'), InteractivePrefix);
    ParseJoinRoundTrip(entries, ';');
  }
}
