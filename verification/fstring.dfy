/**
 * The Unreal `FString` operations the interaction tag parser relies on, with
 * the defaults the engine gives them:
 *  - `RemoveFromStart(Prefix)` compares case-insensitively;
 *  - `ParseIntoArray(Out, Delim)` culls empty pieces;
 *  - `Split(Sep, &Left, &Right)` cuts at the first separator and leaves both
 *    halves empty when there is none;
 *  - `Equals` is case-sensitive, i.e. plain `==`.
 * Case folding is modelled for ASCII letters only.
 */
module FString {
  import opened Wrappers

  /** ASCII lower-casing, the folding used by case-insensitive comparison. */
  function ToLower(c: char): char
  {
    if 'A' <= c <= 'Z' then (c as int + 32) as char else c
  }

  predicate EqualsIgnoreCase(a: string, b: string)
  {
    |a| == |b| && forall k :: 0 <= k < |a| ==> ToLower(a[k]) == ToLower(b[k])
  }

  /**
   * `FString::RemoveFromStart`: `Some(rest)` when the string started with the
   * prefix (ignoring case) and was shortened to `rest`, `None` when it was left
   * as it was. An empty prefix removes nothing and reports failure.
   */
  function RemoveFromStart(s: string, prefix: string): (r: Option<string>)
    ensures r.Some? <==> prefix != [] && |prefix| <= |s| && EqualsIgnoreCase(s[..|prefix|], prefix)
    ensures r.Some? ==> s == s[..|prefix|] + r.value
  {
    if prefix == [] then None
    else if |prefix| <= |s| && EqualsIgnoreCase(s[..|prefix|], prefix) then Some(s[|prefix|..])
    else None
  }

  /** Any spelling of the prefix that differs only in letter case is removed. */
  lemma RemoveFromStartAnyCase(head: string, rest: string, prefix: string)
    requires EqualsIgnoreCase(head, prefix)
    ensures prefix != [] ==> RemoveFromStart(head + rest, prefix) == Some(rest)
    ensures prefix == [] ==> RemoveFromStart(head + rest, prefix) == None
  {
    assert (head + rest)[..|prefix|] == head;
    assert (head + rest)[|prefix|..] == rest;
  }

  /** Index of the first occurrence of `d` in `s`, or `|s|` when there is none. */
  function IndexOf(s: string, d: char): (k: nat)
    ensures k <= |s|
    ensures k < |s| ==> s[k] == d
    ensures forall j :: 0 <= j < k ==> s[j] != d
  {
    if s == [] then 0 else if s[0] == d then 0 else 1 + IndexOf(s[1..], d)
  }

  /** The first occurrence is determined by where `d` first appears. */
  lemma IndexOfAfter(head: string, d: char, tail: string)
    requires d !in head
    ensures IndexOf(head + [d] + tail, d) == |head|
  {
    var s := head + [d] + tail;
    assert s[|head|] == d;
    forall j | 0 <= j < |head| ensures s[j] != d {
      assert s[j] == head[j];
    }
  }

  /**
   * `FString::Split(Sep, &Left, &Right)` with `Left` and `Right` starting out
   * empty: cuts at the first separator; both halves stay empty when there is none.
   */
  function Split(s: string, sep: char): (r: (string, string))
    ensures sep in s ==> s == r.0 + [sep] + r.1 && sep !in r.0
    ensures sep !in s ==> r == ("", "")
  {
    var k := IndexOf(s, sep);
    if k < |s| then
      assert s == s[..k] + [sep] + s[k + 1..];
      (s[..k], s[k + 1..])
    else
      ("", "")
  }

  /** Splitting `left + sep + right` at the first separator gives back both halves. */
  lemma SplitRoundTrip(left: string, sep: char, right: string)
    requires sep !in left
    ensures Split(left + [sep] + right, sep) == (left, right)
  {
    var s := left + [sep] + right;
    IndexOfAfter(left, sep, right);
    assert s[..|left|] == left;
    assert s[|left| + 1..] == right;
  }

  /**
   * `FString::ParseIntoArray(Out, Delim, true)`: the pieces between
   * delimiters, empty pieces dropped.
   */
  function ParseIntoArray(s: string, d: char): (pieces: seq<string>)
    ensures forall k :: 0 <= k < |pieces| ==> pieces[k] != [] && d !in pieces[k]
    decreases |s|
  {
    if s == [] then []
    else
      var k := IndexOf(s, d);
      var rest := if k < |s| then ParseIntoArray(s[k + 1..], d) else [];
      if k == 0 then rest else [s[..k]] + rest
  }

  /** The pieces joined back with the delimiter between them. */
  function Join(pieces: seq<string>, d: char): string
  {
    if |pieces| == 0 then ""
    else if |pieces| == 1 then pieces[0]
    else pieces[0] + [d] + Join(pieces[1..], d)
  }

  /** A delimiter-free, non-empty head followed by the delimiter is one piece. */
  lemma ParseHead(head: string, d: char, tail: string)
    requires head != [] && d !in head
    ensures ParseIntoArray(head + [d] + tail, d) == [head] + ParseIntoArray(tail, d)
  {
    var s := head + [d] + tail;
    IndexOfAfter(head, d, tail);
    assert s[..|head|] == head;
    assert s[|head| + 1..] == tail;
  }

  /** A delimiter-free, non-empty string is a single piece. */
  lemma ParseWhole(s: string, d: char)
    requires s != [] && d !in s
    ensures ParseIntoArray(s, d) == [s]
  {
    assert IndexOf(s, d) == |s|;
    assert s[..|s|] == s;
  }

  /**
   * Parsing undoes joining: non-empty, delimiter-free pieces joined with the
   * delimiter are parsed back into exactly those pieces.
   */
  lemma {:induction false} ParseJoinRoundTrip(pieces: seq<string>, d: char)
    requires forall k :: 0 <= k < |pieces| ==> pieces[k] != [] && d !in pieces[k]
    ensures ParseIntoArray(Join(pieces, d), d) == pieces
    decreases |pieces|
  {
    if |pieces| == 1 {
      ParseWhole(pieces[0], d);
    } else if |pieces| > 1 {
      ParseHead(pieces[0], d, Join(pieces[1..], d));
      ParseJoinRoundTrip(pieces[1..], d);
      assert pieces == [pieces[0]] + pieces[1..];
    }
  }

  /** The pieces that are not empty, in order. */
  function NonEmpty(pieces: seq<string>): (r: seq<string>)
    ensures forall k :: 0 <= k < |r| ==> r[k] != [] && r[k] in pieces
  {
    if pieces == [] then []
    else (if pieces[0] == [] then [] else [pieces[0]]) + NonEmpty(pieces[1..])
  }

  /** A leading delimiter only opens an empty piece, which is dropped. */
  lemma ParseLeadingDelimiter(d: char, s: string)
    ensures ParseIntoArray([d] + s, d) == ParseIntoArray(s, d)
  {
    assert IndexOf([d] + s, d) == 0;
    assert ([d] + s)[1..] == s;
  }

  /**
   * Empty pieces are culled: parsing delimiter-free pieces joined with the
   * delimiter, some of them possibly empty, gives back exactly the non-empty
   * ones, in order.
   */
  lemma {:induction false} ParseJoinCulls(pieces: seq<string>, d: char)
    requires forall k :: 0 <= k < |pieces| ==> d !in pieces[k]
    ensures ParseIntoArray(Join(pieces, d), d) == NonEmpty(pieces)
    decreases |pieces|
  {
    if |pieces| == 1 {
      assert pieces[1..] == [];
      if pieces[0] != [] {
        ParseWhole(pieces[0], d);
      }
    } else if |pieces| > 1 {
      var tail := Join(pieces[1..], d);
      if pieces[0] == [] {
        assert Join(pieces, d) == [d] + tail;
        ParseLeadingDelimiter(d, tail);
      } else {
        ParseHead(pieces[0], d, tail);
      }
      ParseJoinCulls(pieces[1..], d);
    }
  }
}
