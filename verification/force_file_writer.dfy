/**
 * The grasp-log serialiser `ForceFileWriter` (Utilities/ForceFileWriter.cpp).
 *
 * The file is an append-only string. Whether an append succeeds is decided by
 * the file system: the k-th append ever attempted on a file succeeds exactly
 * when `accepts(k)` holds. Float formatting (`FString::SanitizeFloat`) is an
 * opaque function `fmt`, and the `EGraspType` display names are an optional
 * function (`None` when the enum cannot be found).
 */
module ForceFileWriter {
  import opened Wrappers

  datatype Finger = Index | Middle | Ring | Pinky | Thumb

  datatype Phalanx = Distal | Intermediate | Proximal

  /** The fifteen force arrays of one grasp, one per finger bone. */
  datatype HandForces = HandForces(
    IndexDistal: seq<real>, IndexIntermediate: seq<real>, IndexProximal: seq<real>,
    MiddleDistal: seq<real>, MiddleIntermediate: seq<real>, MiddleProximal: seq<real>,
    RingDistal: seq<real>, RingIntermediate: seq<real>, RingProximal: seq<real>,
    PinkyDistal: seq<real>, PinkyIntermediate: seq<real>, PinkyProximal: seq<real>,
    ThumbDistal: seq<real>, ThumbIntermediate: seq<real>, ThumbProximal: seq<real>)

  /** `FLogInfo`: the grasp type as an `EGraspType` index, and the forces. */
  datatype LogInfo = LogInfo(graspType: nat, forces: HandForces)

  /** One entry of the item-to-grasp-info map, in the map's iteration order. */
  datatype Entry = Entry(itemName: string, info: LogInfo)

  function Forces(h: HandForces, f: Finger, p: Phalanx): seq<real>
  {
    match (f, p)
    case (Index, Distal) => h.IndexDistal
    case (Index, Intermediate) => h.IndexIntermediate
    case (Index, Proximal) => h.IndexProximal
    case (Middle, Distal) => h.MiddleDistal
    case (Middle, Intermediate) => h.MiddleIntermediate
    case (Middle, Proximal) => h.MiddleProximal
    case (Ring, Distal) => h.RingDistal
    case (Ring, Intermediate) => h.RingIntermediate
    case (Ring, Proximal) => h.RingProximal
    case (Pinky, Distal) => h.PinkyDistal
    case (Pinky, Intermediate) => h.PinkyIntermediate
    case (Pinky, Proximal) => h.PinkyProximal
    case (Thumb, Distal) => h.ThumbDistal
    case (Thumb, Intermediate) => h.ThumbIntermediate
    case (Thumb, Proximal) => h.ThumbProximal
  }

  function FingerName(f: Finger): string
  {
    match f
    case Index => "Index"
    case Middle => "Middle"
    case Ring => "Ring"
    case Pinky => "Pinky"
    case Thumb => "Thumb"
  }

  function PhalanxName(p: Phalanx): string
  {
    match p
    case Distal => "Distal"
    case Intermediate => "Intermediate"
    case Proximal => "Proximal"
  }

  /** The header line of one force section, e.g. "\nIndex - Distal:". */
  function SectionHeader(f: Finger, p: Phalanx): string
  {
    "\n" + FingerName(f) + " - " + PhalanxName(p) + ":"
  }

  const FingerOrder: seq<Finger> := [Index, Middle, Ring, Pinky, Thumb]

  const PhalanxOrder: seq<Phalanx> := [Distal, Intermediate, Proximal]

  /** The force sections in the order the writer emits them. */
  const SectionOrder: seq<(Finger, Phalanx)> := [
    (Index, Distal), (Index, Intermediate), (Index, Proximal),
    (Middle, Distal), (Middle, Intermediate), (Middle, Proximal),
    (Ring, Distal), (Ring, Intermediate), (Ring, Proximal),
    (Pinky, Distal), (Pinky, Intermediate), (Pinky, Proximal),
    (Thumb, Distal), (Thumb, Intermediate), (Thumb, Proximal)]

  /**
   * The sections go finger by finger (Index, Middle, Ring, Pinky, Thumb) and,
   * within a finger, from the tip down (Distal, Intermediate, Proximal).
   */
  lemma SectionOrderIsFingerMajor()
    ensures |SectionOrder| == |FingerOrder| * |PhalanxOrder|
    ensures forall k :: 0 <= k < |SectionOrder| ==> SectionOrder[k] == (FingerOrder[k / 3], PhalanxOrder[k % 3])
  {
  }

  // ----- What is appended, piece by piece -----

  /** What `AppendFloatToFile` appends for one value. */
  function FloatText(v: real, fmt: real -> string): string
  {
    ";" + fmt(v)
  }

  function FloatPieces(vs: seq<real>, fmt: real -> string): (r: seq<string>)
    ensures |r| == |vs|
  {
    seq(|vs|, k requires 0 <= k < |vs| => FloatText(vs[k], fmt))
  }

  /** The appends of the given sections: each header followed by its values. */
  function SectionPieces(h: HandForces, order: seq<(Finger, Phalanx)>, fmt: real -> string): seq<string>
  {
    if order == [] then []
    else
      var (f, p) := order[|order| - 1];
      SectionPieces(h, order[..|order| - 1], fmt) + [SectionHeader(f, p)] + FloatPieces(Forces(h, f, p), fmt)
  }

  /** The grasp type text: the enum's display name, or "Error" when the enum is missing. */
  function GraspTypeText(graspTypeNames: Option<nat -> string>, t: nat): (r: string)
    ensures graspTypeNames.None? ==> r == "Error"
    ensures graspTypeNames.Some? ==> r == graspTypeNames.value(t)
  {
    match graspTypeNames
    case None => "Error"
    case Some(name) => name(t)
  }

  function ItemNameLine(itemName: string): string
  {
    "\nItemName:;" + itemName
  }

  function GraspTypeLine(graspType: string): string
  {
    "\nGraspType:;" + graspType
  }

  function StatusText(succeeded: bool): string
  {
    if succeeded then "\nStatus:;True" else "\nStatus:;False"
  }

  /** The appends the writer attempts for one entry, in order. */
  function EntryPieces(e: Entry, succeeded: bool, graspTypeNames: Option<nat -> string>, fmt: real -> string): seq<string>
  {
    [ItemNameLine(e.itemName), GraspTypeLine(GraspTypeText(graspTypeNames, e.info.graspType)), StatusText(succeeded)]
    + (if succeeded then SectionPieces(e.info.forces, SectionOrder, fmt) else [])
    + ["\n\n"]
  }

  /** The appends the writer attempts for the whole map, in order. */
  function MapPieces(entries: seq<Entry>, succeeded: bool, graspTypeNames: Option<nat -> string>, fmt: real -> string): seq<string>
  {
    if entries == [] then []
    else
      MapPieces(entries[..|entries| - 1], succeeded, graspTypeNames, fmt)
      + EntryPieces(entries[|entries| - 1], succeeded, graspTypeNames, fmt)
  }

  // ----- The record format as text -----

  function Concat(ss: seq<string>): string
  {
    if ss == [] then "" else ss[0] + Concat(ss[1..])
  }

  /** The values of one section, each written as ';' and its formatted text. */
  function ValuesText(vs: seq<real>, fmt: real -> string): string
  {
    if vs == [] then "" else ";" + fmt(vs[0]) + ValuesText(vs[1..], fmt)
  }

  function SectionText(h: HandForces, f: Finger, p: Phalanx, fmt: real -> string): string
  {
    SectionHeader(f, p) + ValuesText(Forces(h, f, p), fmt)
  }

  function FingerText(h: HandForces, f: Finger, fmt: real -> string): string
  {
    SectionText(h, f, Distal, fmt) + SectionText(h, f, Intermediate, fmt) + SectionText(h, f, Proximal, fmt)
  }

  /** The five fingers' sections: Index, Middle, Ring, Pinky, Thumb. */
  function ForcesText(h: HandForces, fmt: real -> string): string
  {
    FingerText(h, Index, fmt) + FingerText(h, Middle, fmt) + FingerText(h, Ring, fmt)
    + FingerText(h, Pinky, fmt) + FingerText(h, Thumb, fmt)
  }

  /**
   * One record of the log: item name, grasp type and status lines, then, only
   * for a successful grasp, the fifteen force sections finger by finger, and a
   * blank line to close it.
   */
  function EntryText(e: Entry, succeeded: bool, graspTypeNames: Option<nat -> string>, fmt: real -> string): string
  {
    ItemNameLine(e.itemName)
    + GraspTypeLine(GraspTypeText(graspTypeNames, e.info.graspType))
    + StatusText(succeeded)
    + (if succeeded then ForcesText(e.info.forces, fmt) else "")
    + "\n\n"
  }

  /** The records of all entries, one after the other. */
  function MapText(entries: seq<Entry>, succeeded: bool, graspTypeNames: Option<nat -> string>, fmt: real -> string): string
  {
    if entries == [] then ""
    else MapText(entries[..|entries| - 1], succeeded, graspTypeNames, fmt) + EntryText(entries[|entries| - 1], succeeded, graspTypeNames, fmt)
  }

  lemma {:induction false} ConcatAppend(a: seq<string>, b: seq<string>)
    ensures Concat(a + b) == Concat(a) + Concat(b)
    decreases |a|
  {
    if a == [] {
      assert a + b == b;
    } else {
      assert (a + b)[0] == a[0];
      assert (a + b)[1..] == a[1..] + b;
      ConcatAppend(a[1..], b);
    }
  }

  lemma {:induction false} FloatPiecesText(vs: seq<real>, fmt: real -> string)
    ensures Concat(FloatPieces(vs, fmt)) == ValuesText(vs, fmt)
    decreases |vs|
  {
    if vs != [] {
      var pieces := FloatPieces(vs, fmt);
      assert pieces[0] == ";" + fmt(vs[0]);
      assert pieces[1..] == FloatPieces(vs[1..], fmt);
      FloatPiecesText(vs[1..], fmt);
    }
  }

  /** The appends of consecutive runs of sections follow one another. */
  lemma {:induction false} SectionPiecesAppend(h: HandForces, a: seq<(Finger, Phalanx)>, b: seq<(Finger, Phalanx)>, fmt: real -> string)
    ensures SectionPieces(h, a + b, fmt) == SectionPieces(h, a, fmt) + SectionPieces(h, b, fmt)
    decreases |b|
  {
    if b == [] {
      assert a + b == a;
    } else {
      assert (a + b)[..|a + b| - 1] == a + b[..|b| - 1];
      assert (a + b)[|a + b| - 1] == b[|b| - 1];
      SectionPiecesAppend(h, a, b[..|b| - 1], fmt);
    }
  }

  /** The appends of one section, put together, are the section's text. */
  lemma OneSectionText(h: HandForces, f: Finger, p: Phalanx, fmt: real -> string)
    ensures Concat(SectionPieces(h, [(f, p)], fmt)) == SectionText(h, f, p, fmt)
  {
    assert [(f, p)][..0] == [];
    assert SectionPieces(h, [(f, p)], fmt) == [SectionHeader(f, p)] + FloatPieces(Forces(h, f, p), fmt);
    ConcatAppend([SectionHeader(f, p)], FloatPieces(Forces(h, f, p), fmt));
    FloatPiecesText(Forces(h, f, p), fmt);
  }

  /** The appends of one finger's three sections, put together, are the finger's text. */
  lemma FingerSectionsText(h: HandForces, f: Finger, fmt: real -> string)
    ensures Concat(SectionPieces(h, [(f, Distal), (f, Intermediate), (f, Proximal)], fmt)) == FingerText(h, f, fmt)
  {
    assert [(f, Distal), (f, Intermediate), (f, Proximal)] == [(f, Distal)] + [(f, Intermediate)] + [(f, Proximal)];
    SectionPiecesAppend(h, [(f, Distal)] + [(f, Intermediate)], [(f, Proximal)], fmt);
    SectionPiecesAppend(h, [(f, Distal)], [(f, Intermediate)], fmt);
    ConcatAppend(SectionPieces(h, [(f, Distal)], fmt) + SectionPieces(h, [(f, Intermediate)], fmt), SectionPieces(h, [(f, Proximal)], fmt));
    ConcatAppend(SectionPieces(h, [(f, Distal)], fmt), SectionPieces(h, [(f, Intermediate)], fmt));
    OneSectionText(h, f, Distal, fmt);
    OneSectionText(h, f, Intermediate, fmt);
    OneSectionText(h, f, Proximal, fmt);
  }

  function FingerSections(f: Finger): seq<(Finger, Phalanx)>
  {
    [(f, Distal), (f, Intermediate), (f, Proximal)]
  }

  /** The appends of the fifteen sections spell out the five fingers' text. */
  lemma SectionPiecesText(h: HandForces, fmt: real -> string)
    ensures Concat(SectionPieces(h, SectionOrder, fmt)) == ForcesText(h, fmt)
  {
    var a := FingerSections(Index);
    var b := FingerSections(Middle);
    var c := FingerSections(Ring);
    var d := FingerSections(Pinky);
    var e := FingerSections(Thumb);
    assert SectionOrder == a + b + c + d + e;
    SectionPiecesAppend(h, a + b + c + d, e, fmt);
    SectionPiecesAppend(h, a + b + c, d, fmt);
    SectionPiecesAppend(h, a + b, c, fmt);
    SectionPiecesAppend(h, a, b, fmt);
    var pa, pb, pc, pd, pe := SectionPieces(h, a, fmt), SectionPieces(h, b, fmt), SectionPieces(h, c, fmt),
      SectionPieces(h, d, fmt), SectionPieces(h, e, fmt);
    ConcatAppend(pa + pb + pc + pd, pe);
    ConcatAppend(pa + pb + pc, pd);
    ConcatAppend(pa + pb, pc);
    ConcatAppend(pa, pb);
    FingerSectionsText(h, Index, fmt);
    FingerSectionsText(h, Middle, fmt);
    FingerSectionsText(h, Ring, fmt);
    FingerSectionsText(h, Pinky, fmt);
    FingerSectionsText(h, Thumb, fmt);
  }

  /**
   * The appends the writer attempts for one entry, put together, are exactly
   * the entry's record.
   */
  lemma EntryPiecesText(e: Entry, succeeded: bool, graspTypeNames: Option<nat -> string>, fmt: real -> string)
    ensures Concat(EntryPieces(e, succeeded, graspTypeNames, fmt)) == EntryText(e, succeeded, graspTypeNames, fmt)
  {
    var body := if succeeded then SectionPieces(e.info.forces, SectionOrder, fmt) else [];
    var bodyText := if succeeded then ForcesText(e.info.forces, fmt) else "";
    if succeeded {
      SectionPiecesText(e.info.forces, fmt);
    }
    RecordShape(ItemNameLine(e.itemName), GraspTypeLine(GraspTypeText(graspTypeNames, e.info.graspType)),
      StatusText(succeeded), body, bodyText);
  }

  /** A record's appends: three lines, a body whose appends spell `bodyText`, a closing blank line. */
  lemma RecordShape(h0: string, h1: string, h2: string, body: seq<string>, bodyText: string)
    requires Concat(body) == bodyText
    ensures Concat([h0, h1, h2] + body + ["\n\n"]) == h0 + h1 + h2 + bodyText + "\n\n"
  {
    ConcatAppend([h0, h1, h2] + body, ["\n\n"]);
    ConcatAppend([h0, h1, h2], body);
    ConcatThree(h0, h1, h2);
    ConcatOne("\n\n");
  }

  lemma ConcatOne(a: string)
    ensures Concat([a]) == a
  {
    assert [a][1..] == [];
    assert a + "" == a;
  }

  lemma ConcatThree(a: string, b: string, c: string)
    ensures Concat([a, b, c]) == a + b + c
  {
    assert [a, b, c][1..] == [b, c];
    assert [b, c][1..] == [c];
    ConcatOne(c);
  }

  /** The appends for the whole map, put together, are the records one after the other. */
  lemma {:induction false} MapPiecesText(entries: seq<Entry>, succeeded: bool, graspTypeNames: Option<nat -> string>, fmt: real -> string)
    ensures Concat(MapPieces(entries, succeeded, graspTypeNames, fmt)) == MapText(entries, succeeded, graspTypeNames, fmt)
    decreases |entries|
  {
    if entries != [] {
      var front := entries[..|entries| - 1];
      var last := entries[|entries| - 1];
      ConcatAppend(MapPieces(front, succeeded, graspTypeNames, fmt), EntryPieces(last, succeeded, graspTypeNames, fmt));
      MapPiecesText(front, succeeded, graspTypeNames, fmt);
      EntryPiecesText(last, succeeded, graspTypeNames, fmt);
    }
  }

  /** Writing one more entry appends that entry's pieces. */
  lemma MapPiecesSnoc(entries: seq<Entry>, i: nat, succeeded: bool, graspTypeNames: Option<nat -> string>, fmt: real -> string)
    requires i < |entries|
    ensures MapPieces(entries[..i + 1], succeeded, graspTypeNames, fmt) ==
      MapPieces(entries[..i], succeeded, graspTypeNames, fmt) + EntryPieces(entries[i], succeeded, graspTypeNames, fmt)
  {
    assert entries[..i + 1][..i] == entries[..i];
  }

  /** A failed grasp's record holds the three header lines and the closing blank line only. */
  lemma FailedGraspHasNoForces(e: Entry, graspTypeNames: Option<nat -> string>, fmt: real -> string)
    ensures EntryPieces(e, false, graspTypeNames, fmt) ==
      ["\nItemName:;" + e.itemName, "\nGraspType:;" + GraspTypeText(graspTypeNames, e.info.graspType), "\nStatus:;False", "\n\n"]
  {
  }

  // ----- Chaining appends with a short-circuit `&&` -----

  /** The file and the `Success` flag of the writer between two appends. */
  datatype Progress = Progress(contents: string, attempts: nat, success: bool)

  /** `Success = Success && Append(s)`: no attempt once `Success` is false. */
  function Step(p: Progress, s: string, accepts: nat -> bool): Progress
  {
    if !p.success then p
    else if accepts(p.attempts) then Progress(p.contents + s, p.attempts + 1, true)
    else Progress(p.contents, p.attempts + 1, false)
  }

  function Chain(p: Progress, pieces: seq<string>, accepts: nat -> bool): Progress
    decreases |pieces|
  {
    if pieces == [] then p else Chain(Step(p, pieces[0], accepts), pieces[1..], accepts)
  }

  lemma {:induction false} ChainAppend(p: Progress, a: seq<string>, b: seq<string>, accepts: nat -> bool)
    ensures Chain(p, a + b, accepts) == Chain(Chain(p, a, accepts), b, accepts)
    decreases |a|
  {
    if a == [] {
      assert a + b == b;
    } else {
      assert (a + b)[0] == a[0];
      assert (a + b)[1..] == a[1..] + b;
      ChainAppend(Step(p, a[0], accepts), a[1..], b, accepts);
    }
  }

  lemma ChainSnoc(p: Progress, a: seq<string>, s: string, accepts: nat -> bool)
    ensures Chain(p, a + [s], accepts) == Step(Chain(p, a, accepts), s, accepts)
  {
    ChainAppend(p, a, [s], accepts);
  }

  predicate AllAccepted(start: nat, n: nat, accepts: nat -> bool)
  {
    forall j :: start <= j < start + n ==> accepts(j)
  }

  /** Once an append has failed, nothing more is attempted and nothing changes. */
  lemma {:induction false} ChainAfterFailure(p: Progress, pieces: seq<string>, accepts: nat -> bool)
    requires !p.success
    ensures Chain(p, pieces, accepts) == p
    decreases |pieces|
  {
    if pieces != [] {
      ChainAfterFailure(p, pieces[1..], accepts);
    }
  }

  /**
   * The outcome of a chain of appends started with `Success` true: either every
   * append was attempted and succeeded, and the file grew by all of them; or
   * the appends were attempted up to and including the first one that failed,
   * the file grew by exactly the ones before it, and none after it was tried.
   */
  lemma {:induction false} ChainOutcome(p: Progress, pieces: seq<string>, accepts: nat -> bool)
    requires p.success
    ensures var r := Chain(p, pieces, accepts);
      p.attempts <= r.attempts <= p.attempts + |pieces| &&
      (r.success <==> AllAccepted(p.attempts, |pieces|, accepts)) &&
      (r.success ==> r.attempts == p.attempts + |pieces| && r.contents == p.contents + Concat(pieces)) &&
      (!r.success ==>
        p.attempts < r.attempts &&
        AllAccepted(p.attempts, r.attempts - 1 - p.attempts, accepts) && !accepts(r.attempts - 1) &&
        r.contents == p.contents + Concat(pieces[..r.attempts - 1 - p.attempts]))
    decreases |pieces|
  {
    if pieces != [] {
      var q := Step(p, pieces[0], accepts);
      var r := Chain(p, pieces, accepts);
      if accepts(p.attempts) {
        ChainOutcome(q, pieces[1..], accepts);
        if r.success {
          assert pieces == [pieces[0]] + pieces[1..];
        } else {
          var n := r.attempts - 1 - p.attempts;
          assert pieces[..n][1..] == pieces[1..][..n - 1];
        }
      } else {
        ChainAfterFailure(q, pieces[1..], accepts);
        assert !AllAccepted(p.attempts, |pieces|, accepts);
      }
    }
  }

  /**
   * The outcome of writing a whole map with `Success` starting out true: when
   * it stays true every append succeeded and the file grew by every record;
   * otherwise exactly the appends before the failing one took effect.
   */
  lemma MapOutcome(p: Progress, entries: seq<Entry>, succeeded: bool,
                   graspTypeNames: Option<nat -> string>, fmt: real -> string, accepts: nat -> bool)
    requires p.success
    ensures var r := Chain(p, MapPieces(entries, succeeded, graspTypeNames, fmt), accepts);
      p.attempts <= r.attempts &&
      (r.success <==> AllAccepted(p.attempts, r.attempts - p.attempts, accepts)) &&
      (r.success ==> r.contents == p.contents + MapText(entries, succeeded, graspTypeNames, fmt)) &&
      (entries == [] ==> r == p)
  {
    var pieces := MapPieces(entries, succeeded, graspTypeNames, fmt);
    var r := Chain(p, pieces, accepts);
    ChainOutcome(p, pieces, accepts);
    MapPiecesText(entries, succeeded, graspTypeNames, fmt);
    if !r.success {
      assert !accepts(r.attempts - 1);
    }
  }

  // ----- The file and the writer -----

  /** A file opened for appending. */
  class LogFile {
    var contents: string
    var attempts: nat
    const accepts: nat -> bool

    function Now(success: bool): Progress
      reads this
    {
      Progress(contents, attempts, success)
    }

    constructor (initial: string, accepts: nat -> bool)
      ensures contents == initial && attempts == 0 && this.accepts == accepts
    {
      contents := initial;
      attempts := 0;
      this.accepts := accepts;
    }

    /** `FFileHelper::SaveStringToFile(s, ..., FILEWRITE_Append)`. */
    method Append(s: string) returns (ok: bool)
      modifies this`contents, this`attempts
      ensures ok == accepts(old(attempts))
      ensures attempts == old(attempts) + 1
      ensures contents == if ok then old(contents) + s else old(contents)
    {
      ok := accepts(attempts);
      if ok {
        contents := contents + s;
      }
      attempts := attempts + 1;
    }
  }

  /** `AppendStringToFile`: appends the string as it is. */
  method AppendStringToFile(file: LogFile, value: string) returns (ok: bool)
    modifies file`contents, file`attempts
    ensures file.Now(ok) == Step(old(file.Now(true)), value, file.accepts)
  {
    ok := file.Append(value);
  }

  /** `AppendFloatToFile`: appends ';' followed by the formatted value. */
  method AppendFloatToFile(file: LogFile, value: real, fmt: real -> string) returns (ok: bool)
    modifies file`contents, file`attempts
    ensures file.Now(ok) == Step(old(file.Now(true)), ";" + fmt(value), file.accepts)
  {
    ok := file.Append(";" + fmt(value));
  }

  /** One force section: the header, then every value, each guarded by `Success`. */
  method WriteSection(file: LogFile, success: bool, f: Finger, p: Phalanx, vs: seq<real>, fmt: real -> string)
    returns (ok: bool)
    modifies file`contents, file`attempts
    ensures file.Now(ok) == Chain(old(file.Now(success)), [SectionHeader(f, p)] + FloatPieces(vs, fmt), file.accepts)
  {
    ghost var start := file.Now(success);
    ghost var pieces := [SectionHeader(f, p)] + FloatPieces(vs, fmt);
    ok := success;
    if ok {
      ok := AppendStringToFile(file, SectionHeader(f, p));
    }
    ChainSnoc(start, [], SectionHeader(f, p), file.accepts);
    assert pieces[..1] == [] + [SectionHeader(f, p)];
    var k := 0;
    while k < |vs|
      invariant 0 <= k <= |vs|
      invariant file.Now(ok) == Chain(start, pieces[..k + 1], file.accepts)
    {
      if ok {
        ok := AppendFloatToFile(file, vs[k], fmt);
      }
      assert pieces[..k + 2] == pieces[..k + 1] + [FloatText(vs[k], fmt)];
      ChainSnoc(start, pieces[..k + 1], FloatText(vs[k], fmt), file.accepts);
      k := k + 1;
    }
    assert pieces[..|vs| + 1] == pieces;
  }

  /** The item name, grasp type and status lines of one entry. */
  method WriteEntryHead(file: LogFile, success: bool, e: Entry, succeeded: bool, graspType: string)
    returns (ok: bool)
    modifies file`contents, file`attempts
    ensures file.Now(ok) == Chain(old(file.Now(success)),
      [ItemNameLine(e.itemName), GraspTypeLine(graspType), StatusText(succeeded)], file.accepts)
  {
    ghost var start := file.Now(success);
    ok := success;
    if ok {
      ok := AppendStringToFile(file, "\nItemName:;" + e.itemName);
    }
    ChainSnoc(start, [], ItemNameLine(e.itemName), file.accepts);
    if ok {
      ok := AppendStringToFile(file, "\nGraspType:;" + graspType);
    }
    ChainSnoc(start, [ItemNameLine(e.itemName)], GraspTypeLine(graspType), file.accepts);
    if succeeded {
      if ok {
        ok := AppendStringToFile(file, "\nStatus:;True");
      }
    } else {
      if ok {
        ok := AppendStringToFile(file, "\nStatus:;False");
      }
    }
    ChainSnoc(start, [ItemNameLine(e.itemName), GraspTypeLine(graspType)], StatusText(succeeded), file.accepts);
  }

  /** The force sections named by `order`, one after the other. */
  method WriteSections(file: LogFile, success: bool, h: HandForces, order: seq<(Finger, Phalanx)>, fmt: real -> string)
    returns (ok: bool)
    modifies file`contents, file`attempts
    ensures file.Now(ok) == Chain(old(file.Now(success)), SectionPieces(h, order, fmt), file.accepts)
  {
    ghost var start := file.Now(success);
    ok := success;
    var k := 0;
    while k < |order|
      invariant 0 <= k <= |order|
      invariant file.Now(ok) == Chain(start, SectionPieces(h, order[..k], fmt), file.accepts)
    {
      var (f, p) := order[k];
      ok := WriteSection(file, ok, f, p, Forces(h, f, p), fmt);
      assert order[..k + 1][..k] == order[..k];
      assert SectionPieces(h, order[..k + 1], fmt) ==
        SectionPieces(h, order[..k], fmt) + ([SectionHeader(f, p)] + FloatPieces(Forces(h, f, p), fmt));
      ChainAppend(start, SectionPieces(h, order[..k], fmt),
        [SectionHeader(f, p)] + FloatPieces(Forces(h, f, p), fmt), file.accepts);
      k := k + 1;
    }
    assert order[..|order|] == order;
  }

  /** The fifteen force sections of one successful grasp, in `SectionOrder`. */
  method WriteForces(file: LogFile, success: bool, h: HandForces, fmt: real -> string)
    returns (ok: bool)
    modifies file`contents, file`attempts
    ensures file.Now(ok) == Chain(old(file.Now(success)), SectionPieces(h, SectionOrder, fmt), file.accepts)
  {
    ok := WriteSections(file, success, h, SectionOrder, fmt);
  }

  /** One entry of the map: name, grasp type, status, forces if the grasp succeeded, blank line. */
  method WriteEntry(file: LogFile, success: bool, e: Entry, succeeded: bool,
                    graspTypeNames: Option<nat -> string>, fmt: real -> string)
    returns (ok: bool)
    modifies file`contents, file`attempts
    ensures file.Now(ok) == Chain(old(file.Now(success)), EntryPieces(e, succeeded, graspTypeNames, fmt), file.accepts)
  {
    ghost var start := file.Now(success);
    var graspType := GraspTypeText(graspTypeNames, e.info.graspType);
    ghost var head := [ItemNameLine(e.itemName), GraspTypeLine(graspType), StatusText(succeeded)];
    ghost var body := if succeeded then SectionPieces(e.info.forces, SectionOrder, fmt) else [];
    ok := WriteEntryHead(file, success, e, succeeded, graspType);
    if succeeded {
      ok := WriteForces(file, ok, e.info.forces, fmt);
    }
    ChainAppend(start, head, body, file.accepts);
    if ok {
      ok := AppendStringToFile(file, "\n\n");
    }
    ChainSnoc(start, head + body, "\n\n", file.accepts);
  }

  /**
   * `WriteGraspInfoMapToFile`: writes one record per entry, chaining every
   * append through `Success`, and returns `Success`.
   */
  method WriteGraspInfoMapToFile(file: LogFile, entries: seq<Entry>, succeeded: bool,
                                 graspTypeNames: Option<nat -> string>, fmt: real -> string)
    returns (success: bool)
    modifies file`contents, file`attempts
    ensures file.Now(success) == Chain(old(file.Now(true)), MapPieces(entries, succeeded, graspTypeNames, fmt), file.accepts)
    ensures old(file.attempts) <= file.attempts
    ensures success <==> AllAccepted(old(file.attempts), file.attempts - old(file.attempts), file.accepts)
    ensures success ==> file.contents == old(file.contents) + MapText(entries, succeeded, graspTypeNames, fmt)
    ensures entries == [] ==> success && file.contents == old(file.contents) && file.attempts == old(file.attempts)
  {
    ghost var start := file.Now(true);
    success := true;
    var i := 0;
    while i < |entries|
      invariant 0 <= i <= |entries|
      invariant file.Now(success) == Chain(start, MapPieces(entries[..i], succeeded, graspTypeNames, fmt), file.accepts)
    {
      success := WriteEntry(file, success, entries[i], succeeded, graspTypeNames, fmt);
      MapPiecesSnoc(entries, i, succeeded, graspTypeNames, fmt);
      ChainAppend(start, MapPieces(entries[..i], succeeded, graspTypeNames, fmt),
        EntryPieces(entries[i], succeeded, graspTypeNames, fmt), file.accepts);
      i := i + 1;
    }
    assert entries[..|entries|] == entries;
    MapOutcome(start, entries, succeeded, graspTypeNames, fmt, file.accepts);
  }
}
