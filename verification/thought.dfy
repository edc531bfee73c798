/**
 Filtering of <think>...</think> blocks out of streamed text, one chunk at a
 time with the state carried from chunk to chunk.
 */
module Thought {
  import opened Sequences
  import opened Wrappers

  const OPEN: string := "<think>"
  const CLOSE: string := "</think>"

  /** The tag searched for next. */
  function Tag(inThought: bool): string {
    if inThought then CLOSE else OPEN
  }

  predicate StartsAt(text: string, tag: string, i: nat) {
    i + |tag| <= |text| && forall d {:trigger tag[d]} :: 0 <= d < |tag| ==> text[i + d] == tag[d]
  }

  /** strings.Index. */
  function Index(text: string, tag: string): (i: Option<nat>)
    ensures i.Some? ==> i.value + |tag| <= |text|
  {
    IndexFrom(text, tag, 0)
  }

  function IndexFrom(text: string, tag: string, from: nat): (i: Option<nat>)
    ensures i.Some? ==> i.value + |tag| <= |text|
    decreases |text| - from
  {
    if from + |tag| > |text| then None
    else if StartsAt(text, tag, from) then Some(from)
    else IndexFrom(text, tag, from + 1)
  }

  lemma {:induction false} IndexFromIsLeftmost(text: string, tag: string, from: nat)
    requires forall j: nat :: j < from ==> !StartsAt(text, tag, j)
    ensures IndexFrom(text, tag, from).None? ==> forall j: nat :: !StartsAt(text, tag, j)
    ensures IndexFrom(text, tag, from).Some? ==>
              && StartsAt(text, tag, IndexFrom(text, tag, from).value)
              && forall j: nat :: j < IndexFrom(text, tag, from).value ==> !StartsAt(text, tag, j)
    decreases |text| - from
  {
    if from + |tag| <= |text| && !StartsAt(text, tag, from) {
      IndexFromIsLeftmost(text, tag, from + 1);
    }
  }

  /** Index finds the leftmost occurrence, if there is one. */
  lemma IndexIsLeftmost(text: string, tag: string)
    ensures Index(text, tag).None? ==> forall j: nat :: !StartsAt(text, tag, j)
    ensures Index(text, tag).Some? ==>
              && StartsAt(text, tag, Index(text, tag).value)
              && forall j: nat :: j < Index(text, tag).value ==> !StartsAt(text, tag, j)
  {
    IndexFromIsLeftmost(text, tag, 0);
  }

  /** The kept text and the state after it: cut at the leftmost tag, switch, go on. */
  function Filter(text: string, inThought: bool): (string, bool)
    decreases |text|
  {
    match Index(text, Tag(inThought))
    case None => (if inThought then "" else text, inThought)
    case Some(i) =>
      var rest := Filter(text[i + |Tag(inThought)|..], !inThought);
      ((if inThought then "" else text[..i]) + rest.0, rest.1)
  }

  /** One turn of the search: what is kept before the tag, and the rest in the other state. */
  lemma FilterUnfolds(text: string, inThought: bool, i: nat)
    requires Index(text, Tag(inThought)) == Some(i)
    ensures var rest := Filter(text[i + |Tag(inThought)|..], !inThought);
            && Filter(text, inThought).1 == rest.1
            && (inThought ==> Filter(text, inThought).0 == rest.0)
            && (!inThought ==> Filter(text, inThought).0 == text[..i] + rest.0)
  {
    Unit(Filter(text[i + |Tag(inThought)|..], !inThought).0);
  }

  lemma FilterEmpty(inThought: bool)
    ensures Filter("", inThought) == ("", inThought)
  {
    assert Index("", Tag(inThought)) == None;
  }

  method FilterThought(text0: string, inThought0: bool) returns (kept: string, inThought: bool)
    ensures (kept, inThought) == Filter(text0, inThought0)
  {
    var text := text0;
    var result := "";
    inThought := inThought0;
    Unit(Filter(text, inThought).0);
    while |text| > 0
      invariant result + Filter(text, inThought).0 == Filter(text0, inThought0).0
      invariant Filter(text, inThought).1 == Filter(text0, inThought0).1
      decreases |text|
    {
      if inThought {
        var idx := Index(text, "</think>");
        if idx == None {
          Unit(result);
          return result, true;
        }
        FilterUnfolds(text, true, idx.value);
        text := text[idx.value + |"</think>"|..];
        inThought := false;
        continue;
      }
      var idx := Index(text, "<think>");
      if idx == None {
        result := result + text;
        return result, false;
      }
      FilterUnfolds(text, false, idx.value);
      Assoc(result, text[..idx.value], Filter(text[idx.value + |OPEN|..], true).0);
      result := result + text[..idx.value];
      text := text[idx.value + |"<think>"|..];
      inThought := true;
    }
    FilterEmpty(inThought);
    Unit(result);
    return result, inThought;
  }

  // ----- what the filter means, independently of how it searches -----

  /** Segments woven with alternating tags, the first one inside a thought iff inThought. */
  function Weave(segments: seq<string>, inThought: bool): string
    requires segments != []
  {
    if |segments| == 1 then segments[0]
    else segments[0] + (Tag(inThought) + Weave(segments[1..], !inThought))
  }

  /** No segment contains the tag that would end it. */
  ghost predicate WellFormed(segments: seq<string>, inThought: bool) {
    segments != [] ==>
      && (forall j: nat :: !StartsAt(segments[0], Tag(inThought), j))
      && WellFormed(segments[1..], !inThought)
  }

  function VisibleText(segments: seq<string>, inThought: bool): string {
    if segments == [] then ""
    else (if inThought then "" else segments[0]) + VisibleText(segments[1..], !inThought)
  }

  function StateAfter(segments: seq<string>, inThought: bool): bool
    requires segments != []
  {
    if |segments| == 1 then inThought else StateAfter(segments[1..], !inThought)
  }

  lemma OccursLeft(a: string, b: string, tag: string, j: nat)
    requires j + |tag| <= |a|
    ensures StartsAt(a + b, tag, j) <==> StartsAt(a, tag, j)
  {
  }

  lemma OccursRight(a: string, b: string, tag: string, j: nat)
    ensures StartsAt(a + b, tag, |a| + j) <==> StartsAt(b, tag, j)
  {
  }

  /** An occurrence across the seam: its beginning is the end of the left text. */
  lemma OccursAcross(a: string, b: string, tag: string, j: nat)
    requires StartsAt(a + b, tag, j) && j < |a| < j + |tag|
    ensures a[j..] == tag[..|a| - j]
    ensures b != [] && b[0] == tag[|a| - j]
  {
    assert forall d :: 0 <= d < |a| - j ==> a[j..][d] == tag[d];
  }

  lemma IndexIs(text: string, tag: string, i: nat)
    requires StartsAt(text, tag, i) && forall j: nat :: j < i ==> !StartsAt(text, tag, j)
    ensures Index(text, tag) == Some(i)
  {
    IndexIsLeftmost(text, tag);
  }

  /** A tag begins with its only '<' and ends with its only '>': it cannot overlap itself. */
  lemma TagShape(inThought: bool)
    ensures var tag := Tag(inThought);
            && |tag| >= 7
            && tag[0] == '<' && (forall d :: 0 < d < |tag| ==> tag[d] != '<')
            && tag[|tag| - 1] == '>' && (forall d :: 0 <= d < |tag| - 1 ==> tag[d] != '>')
  {
  }

  /** Where a tag-free text is followed by the tag, the tag's first occurrence is there. */
  lemma FirstTagAfter(u: string, rest: string, inThought: bool)
    requires forall j: nat :: !StartsAt(u, Tag(inThought), j)
    ensures Index(u + (Tag(inThought) + rest), Tag(inThought)) == Some(|u|)
    ensures (u + (Tag(inThought) + rest))[..|u|] == u
    ensures (u + (Tag(inThought) + rest))[|u| + |Tag(inThought)|..] == rest
  {
    var tag := Tag(inThought);
    var text := u + (tag + rest);
    TagShape(inThought);
    OccursRight(u, tag + rest, tag, 0);
    forall j: nat | j < |u| ensures !StartsAt(text, tag, j) {
      if j + |tag| <= |u| {
        OccursLeft(u, tag + rest, tag, j);
      } else if StartsAt(text, tag, j) {
        OccursAcross(u, tag + rest, tag, j);
      }
    }
    IndexIs(text, tag, |u|);
  }

  /** Filtering a woven text keeps exactly its segments outside thoughts. */
  lemma {:induction false} FilterUnweaves(segments: seq<string>, inThought: bool)
    requires segments != [] && WellFormed(segments, inThought)
    ensures Filter(Weave(segments, inThought), inThought)
            == (VisibleText(segments, inThought), StateAfter(segments, inThought))
    decreases |segments|
  {
    if |segments| == 1 {
      assert segments[1..] == [];
      assert segments[0] + "" == segments[0] && "" + "" == "";
      IndexIsLeftmost(segments[0], Tag(inThought));
    } else {
      FirstTagAfter(segments[0], Weave(segments[1..], !inThought), inThought);
      FilterUnweaves(segments[1..], !inThought);
    }
  }

  function Segments(text: string, inThought: bool): (segments: seq<string>)
    ensures segments != []
    decreases |text|
  {
    match Index(text, Tag(inThought))
    case None => [text]
    case Some(i) => [text[..i]] + Segments(text[i + |Tag(inThought)|..], !inThought)
  }

  /** Every text is woven from well-formed segments, so the previous lemma describes every input. */
  lemma {:induction false} EveryTextIsWoven(text: string, inThought: bool)
    ensures WellFormed(Segments(text, inThought), inThought)
    ensures Weave(Segments(text, inThought), inThought) == text
    decreases |text|
  {
    IndexIsLeftmost(text, Tag(inThought));
    match Index(text, Tag(inThought))
    case None =>
      assert [text][1..] == [];
    case Some(i) =>
      var rest := text[i + |Tag(inThought)|..];
      EveryTextIsWoven(rest, !inThought);
      assert Segments(text, inThought)[1..] == Segments(rest, !inThought);
      CutAtTag(text, inThought, i);
  }

  lemma CutAtTag(text: string, inThought: bool, i: nat)
    requires Index(text, Tag(inThought)) == Some(i)
    ensures text == text[..i] + (Tag(inThought) + text[i + |Tag(inThought)|..])
    ensures forall j: nat :: !StartsAt(text[..i], Tag(inThought), j)
  {
    IndexIsLeftmost(text, Tag(inThought));
    assert text == text[..i] + text[i..];
    forall j: nat ensures !StartsAt(text[..i], Tag(inThought), j) {
      if j + |Tag(inThought)| <= i {
        OccursLeft(text[..i], text[i..], Tag(inThought), j);
      }
    }
  }

  // ----- chunks -----

  /** The text ends in a proper, non-empty prefix of the tag. */
  predicate EndsInPartOf(text: string, tag: string) {
    exists k :: 0 < k < |tag| && k <= |text| && text[|text| - k..] == tag[..k]
  }

  /** Filtering a, then b with the state carried over, is filtering a + b. */
  predicate CutIsInvisible(a: string, b: string, inThought: bool) {
    var first := Filter(a, inThought);
    var second := Filter(b, first.1);
    Filter(a + b, inThought).0 == first.0 + second.0 && Filter(a + b, inThought).1 == second.1
  }

  /** A tag already consumed has no part in a tag that is only begun. */
  lemma TailAfterTag(a: string, i: nat, inThought: bool, next: bool, k: nat)
    requires StartsAt(a, Tag(inThought), i)
    requires 0 < k < |Tag(next)| && k <= |a| && a[|a| - k..] == Tag(next)[..k]
    ensures k <= |a| - (i + |Tag(inThought)|)
  {
    TagShape(inThought);
    TagShape(next);
    var p := i + |Tag(inThought)| - 1;
    assert Tag(inThought)[|Tag(inThought)| - 1] == a[p];
    assert forall q :: 0 <= q < k ==> a[|a| - k..][q] == Tag(next)[q];
    assert forall q :: 0 <= q < k ==> a[|a| - k + q] == Tag(next)[q];
  }

  lemma EndsInPartAfterTag(a: string, i: nat, inThought: bool, next: bool)
    requires StartsAt(a, Tag(inThought), i)
    ensures EndsInPartOf(a, Tag(next)) <==> EndsInPartOf(a[i + |Tag(inThought)|..], Tag(next))
  {
    var rest := a[i + |Tag(inThought)|..];
    forall k | 0 < k < |Tag(next)| && k <= |a| && a[|a| - k..] == Tag(next)[..k]
      ensures k <= |rest| && rest[|rest| - k..] == Tag(next)[..k]
    {
      TailAfterTag(a, i, inThought, next, k);
    }
    forall k | 0 < k < |Tag(next)| && k <= |rest| && rest[|rest| - k..] == Tag(next)[..k]
      ensures a[|a| - k..] == Tag(next)[..k]
    {
    }
  }

  lemma IndexBeforeJoin(a: string, b: string, tag: string, i: nat)
    requires Index(a, tag) == Some(i)
    ensures Index(a + b, tag) == Some(i)
  {
    IndexIsLeftmost(a, tag);
    forall j: nat | j <= i ensures StartsAt(a + b, tag, j) <==> StartsAt(a, tag, j) {
      OccursLeft(a, b, tag, j);
    }
    IndexIs(a + b, tag, i);
  }

  lemma SliceJoin(a: string, b: string, i: nat, j: nat)
    requires i <= j <= |a|
    ensures (a + b)[..i] == a[..i] && (a + b)[j..] == a[j..] + b
  {
  }

  lemma SliceJoinRight(a: string, b: string, i: nat, j: nat)
    requires i <= j <= |b|
    ensures (a + b)[..|a| + i] == a + b[..i] && (a + b)[|a| + j..] == b[j..]
  {
  }

  /** Whatever is appended after its first tag, the text is cut at that tag first. */
  lemma FilterUnfoldsBeforeJoin(a: string, b: string, inThought: bool, i: nat)
    requires Index(a, Tag(inThought)) == Some(i)
    ensures var rest := Filter(a[i + |Tag(inThought)|..] + b, !inThought);
            && Filter(a + b, inThought).1 == rest.1
            && (inThought ==> Filter(a + b, inThought).0 == rest.0)
            && (!inThought ==> Filter(a + b, inThought).0 == a[..i] + rest.0)
  {
    IndexBeforeJoin(a, b, Tag(inThought), i);
    SliceJoin(a, b, i, i + |Tag(inThought)|);
    FilterUnfolds(a + b, inThought, i);
  }

  lemma IndexAfterJoin(a: string, b: string, tag: string)
    requires |tag| > 0 && Index(a, tag).None? && !EndsInPartOf(a, tag)
    ensures Index(a + b, tag) == match Index(b, tag) case None => None case Some(i) => Some(|a| + i)
  {
    IndexIsLeftmost(a, tag);
    IndexIsLeftmost(b, tag);
    IndexIsLeftmost(a + b, tag);
    forall j: nat | j < |a| ensures !StartsAt(a + b, tag, j) {
      if j + |tag| <= |a| {
        OccursLeft(a, b, tag, j);
      } else if StartsAt(a + b, tag, j) {
        OccursAcross(a, b, tag, j);
      }
    }
    forall j: nat ensures StartsAt(a + b, tag, |a| + j) <==> StartsAt(b, tag, j) {
      OccursRight(a, b, tag, j);
    }
    match Index(b, tag)
    case None =>
      forall j: nat ensures !StartsAt(a + b, tag, j) {
        assert j >= |a| ==> StartsAt(a + b, tag, |a| + (j - |a|)) == StartsAt(b, tag, j - |a|);
      }
    case Some(i) =>
      forall j: nat | j < |a| + i ensures !StartsAt(a + b, tag, j) {
        assert j >= |a| ==> StartsAt(a + b, tag, |a| + (j - |a|)) == StartsAt(b, tag, j - |a|);
      }
      IndexIs(a + b, tag, |a| + i);
  }

  /** A chunk that does not end in part of the tag then searched for can be cut off anywhere before any text. */
  lemma {:induction false} CleanCutIsInvisible(a: string, b: string, inThought: bool)
    requires !EndsInPartOf(a, Tag(Filter(a, inThought).1))
    ensures CutIsInvisible(a, b, inThought)
    decreases |a|
  {
    match Index(a, Tag(inThought))
    case None =>
      TaglessCutIsInvisible(a, b, inThought);
    case Some(i) =>
      var rest := a[i + |Tag(inThought)|..];
      FilterUnfolds(a, inThought, i);
      IndexIsLeftmost(a, Tag(inThought));
      EndsInPartAfterTag(a, i, inThought, Filter(rest, !inThought).1);
      CleanCutIsInvisible(rest, b, !inThought);
      CutAfterTag(a, b, inThought, i);
  }

  lemma TaglessCutIsInvisible(a: string, b: string, inThought: bool)
    requires Index(a, Tag(inThought)).None? && !EndsInPartOf(a, Tag(inThought))
    ensures CutIsInvisible(a, b, inThought)
  {
    IndexAfterJoin(a, b, Tag(inThought));
    match Index(b, Tag(inThought))
    case None =>
    case Some(i) =>
      SliceJoinRight(a, b, i, i + |Tag(inThought)|);
      FilterAgreesBeyond(a + b, a, b, inThought, i);
      Unit(Filter(b, inThought).0);
  }

  lemma FilterAgreesBeyond(whole: string, a: string, b: string, inThought: bool, i: nat)
    requires Index(b, Tag(inThought)) == Some(i) && Index(whole, Tag(inThought)) == Some(|a| + i)
    requires whole[..|a| + i] == a + b[..i]
    requires whole[|a| + i + |Tag(inThought)|..] == b[i + |Tag(inThought)|..]
    ensures inThought ==> Filter(whole, inThought).0 == Filter(b, inThought).0
    ensures !inThought ==> Filter(whole, inThought).0 == a + Filter(b, inThought).0
    ensures Filter(whole, inThought).1 == Filter(b, inThought).1
  {
    var rest := b[i + |Tag(inThought)|..];
    FilterUnfoldsTo(b, inThought, i, b[..i], rest);
    FilterUnfoldsTo(whole, inThought, |a| + i, a + b[..i], rest);
    if !inThought {
      PrefixJoin(a, b[..i], Filter(rest, true).0, a + b[..i], Filter(b, inThought).0);
    }
  }

  lemma FilterUnfoldsTo(text: string, inThought: bool, i: nat, before: string, rest: string)
    requires Index(text, Tag(inThought)) == Some(i)
    requires text[..i] == before && text[i + |Tag(inThought)|..] == rest
    ensures Filter(text, inThought).1 == Filter(rest, !inThought).1
    ensures inThought ==> Filter(text, inThought).0 == Filter(rest, !inThought).0
    ensures !inThought ==> Filter(text, inThought).0 == before + Filter(rest, !inThought).0
  {
    FilterUnfolds(text, inThought, i);
  }

  lemma PrefixJoin(a: string, pre: string, rest: string, joined: string, all: string)
    requires joined == a + pre && all == pre + rest
    ensures joined + rest == a + all
  {
  }

  lemma CutAfterTag(a: string, b: string, inThought: bool, i: nat)
    requires Index(a, Tag(inThought)) == Some(i)
    requires CutIsInvisible(a[i + |Tag(inThought)|..], b, !inThought)
    ensures CutIsInvisible(a, b, inThought)
  {
    var rest := a[i + |Tag(inThought)|..];
    var first := Filter(rest, !inThought);
    FilterUnfolds(a, inThought, i);
    FilterUnfoldsBeforeJoin(a, b, inThought, i);
    Assoc(a[..i], first.0, Filter(b, first.1).0);
  }

  /** The end of a text is the end of what is left after a cut before it. */
  lemma TailOfRest(a: string, cut: nat, k: nat)
    requires cut <= |a| && k <= |a| - cut
    ensures a[cut..][|a[cut..]| - k..] == a[|a| - k..]
  {
  }

  /** The state after the text is the given one. */
  predicate LeavesState(text: string, inThought: bool, state: bool) {
    Filter(text, inThought).1 == state
  }

  /** The text ends in begun, and missing completes it to the tag. */
  predicate Begun(text: string, begun: string, missing: string, tag: string) {
    && begun != "" && missing != "" && begun + missing == tag
    && |begun| <= |text| && text[|text| - |begun|..] == begun
  }

  lemma BegunIsPrefix(begun: string, missing: string, tag: string)
    requires begun + missing == tag
    ensures begun == tag[..|begun|] && missing == tag[|begun|..]
  {
  }

  /** What is begun at the end of a text is begun at the end of what follows its first tag. */
  lemma BegunAfterTag(a: string, inThought: bool, i: nat, begun: string, missing: string, next: bool)
    requires Index(a, Tag(inThought)) == Some(i)
    requires Begun(a, begun, missing, Tag(next))
    ensures Begun(a[i + |Tag(inThought)|..], begun, missing, Tag(next))
  {
    BegunIsPrefix(begun, missing, Tag(next));
    IndexIsLeftmost(a, Tag(inThought));
    TailAfterTag(a, i, inThought, next, |begun|);
    TailOfRest(a, i + |Tag(inThought)|, |begun|);
  }

  /** Completing a begun tag switches the state; the completed rest alone would not. */
  lemma {:induction false} CompletedTagSwitches(a: string, inThought: bool, begun: string, missing: string, next: bool)
    requires LeavesState(a, inThought, next) && Begun(a, begun, missing, Tag(next))
    ensures LeavesState(a + missing, inThought, !next)
    decreases |a|
  {
    match Index(a, Tag(inThought))
    case None =>
      CompletedTagIsFound(a, inThought, begun, missing, next);
    case Some(i) =>
      FilterUnfolds(a, inThought, i);
      BegunAfterTag(a, inThought, i, begun, missing, next);
      CompletedTagSwitches(a[i + |Tag(inThought)|..], !inThought, begun, missing, next);
      StateAfterTag(a, missing, inThought, i, !next);
  }

  lemma StateAfterTag(a: string, b: string, inThought: bool, i: nat, state: bool)
    requires Index(a, Tag(inThought)) == Some(i)
    requires LeavesState(a[i + |Tag(inThought)|..] + b, !inThought, state)
    ensures LeavesState(a + b, inThought, state)
  {
    FilterUnfoldsBeforeJoin(a, b, inThought, i);
  }

  lemma CompletedTagIsFound(a: string, inThought: bool, begun: string, missing: string, next: bool)
    requires Index(a, Tag(inThought)).None?
    requires LeavesState(a, inThought, next) && Begun(a, begun, missing, Tag(next))
    ensures LeavesState(a + missing, inThought, !next)
  {
    var u := a[..|a| - |begun|];
    SplitTail(a, u, begun, missing, Tag(next));
    TaglessPrefix(a, u, begun, Tag(inThought));
    FirstTagAfter(u, "", inThought);
    FilterUnfolds(u + (Tag(inThought) + ""), inThought, |u|);
    FilterEmpty(!inThought);
  }

  lemma SplitTail(a: string, u: string, begun: string, missing: string, tag: string)
    requires Begun(a, begun, missing, tag) && u == a[..|a| - |begun|]
    ensures a == u + begun && a + missing == u + (tag + "")
  {
    assert a == u + a[|u|..];
  }

  lemma TaglessPrefix(a: string, u: string, rest: string, tag: string)
    requires Index(a, tag).None? && a == u + rest
    ensures forall j: nat :: !StartsAt(u, tag, j)
  {
    IndexIsLeftmost(a, tag);
    forall j: nat ensures !StartsAt(u, tag, j) {
      if j + |tag| <= |u| {
        OccursLeft(u, rest, tag, j);
      }
    }
  }

  lemma MissingHasNoTag(begun: string, missing: string, next: bool)
    requires begun != "" && begun + missing == Tag(next)
    ensures LeavesState(missing, next, next)
  {
    assert |missing| < |Tag(next)|;
    IndexIsLeftmost(missing, Tag(next));
  }

  /**
   The exact condition: the cut after a chunk is invisible whatever text follows
   if and only if the chunk does not end in part of the tag then searched for.
   */
  lemma CutIsInvisibleIff(a: string, inThought: bool)
    ensures (forall b :: CutIsInvisible(a, b, inThought)) <==> !EndsInPartOf(a, Tag(Filter(a, inThought).1))
  {
    if EndsInPartOf(a, Tag(Filter(a, inThought).1)) {
      var b := VisibleCut(a, inThought);
    } else {
      forall b ensures CutIsInvisible(a, b, inThought) {
        CleanCutIsInvisible(a, b, inThought);
      }
    }
  }

  lemma PartIsBegun(a: string, tag: string) returns (begun: string, missing: string)
    requires EndsInPartOf(a, tag)
    ensures Begun(a, begun, missing, tag)
  {
    var k :| 0 < k < |tag| && k <= |a| && a[|a| - k..] == tag[..k];
    begun, missing := tag[..k], tag[k..];
  }

  lemma VisibleCut(a: string, inThought: bool) returns (b: string)
    requires EndsInPartOf(a, Tag(Filter(a, inThought).1))
    ensures !CutIsInvisible(a, b, inThought)
  {
    var next := Filter(a, inThought).1;
    var begun, missing := PartIsBegun(a, Tag(next));
    CompletedTagSwitches(a, inThought, begun, missing, next);
    MissingHasNoTag(begun, missing, next);
    StatesTell(a, missing, inThought, next);
    b := missing;
  }

  lemma StatesTell(a: string, b: string, inThought: bool, next: bool)
    requires next == Filter(a, inThought).1
    requires LeavesState(a + b, inThought, !next) && LeavesState(b, next, next)
    ensures !CutIsInvisible(a, b, inThought)
  {
  }

  /** The stream's use: every chunk filtered with the state its predecessors left. */
  function FilterChunks(chunks: seq<string>, inThought: bool): (string, bool) {
    if chunks == [] then ("", inThought)
    else
      var first := Filter(chunks[0], inThought);
      var rest := FilterChunks(chunks[1..], first.1);
      (first.0 + rest.0, rest.1)
  }

  function Joined(chunks: seq<string>): string {
    if chunks == [] then "" else chunks[0] + Joined(chunks[1..])
  }

  /** No chunk but the last ends in part of the tag then searched for. */
  predicate CleanCuts(chunks: seq<string>, inThought: bool) {
    |chunks| > 1 ==>
      var next := Filter(chunks[0], inThought).1;
      !EndsInPartOf(chunks[0], Tag(next)) && CleanCuts(chunks[1..], next)
  }

  /** Chunked filtering is filtering of the whole text. */
  lemma {:induction false} ChunksFilterAsWhole(chunks: seq<string>, inThought: bool)
    requires CleanCuts(chunks, inThought)
    ensures FilterChunks(chunks, inThought) == Filter(Joined(chunks), inThought)
    decreases |chunks|
  {
    if chunks != [] {
      var next := Filter(chunks[0], inThought).1;
      if |chunks| == 1 {
        assert Joined(chunks[1..]) == "" && FilterChunks(chunks[1..], next) == ("", next);
        assert Joined(chunks) == chunks[0];
        assert Filter(chunks[0], inThought).0 + "" == Filter(chunks[0], inThought).0;
      } else {
        ChunksFilterAsWhole(chunks[1..], next);
        CleanCutIsInvisible(chunks[0], Joined(chunks[1..]), inThought);
      }
    } else {
      assert Index("", Tag(inThought)) == None;
    }
  }
}
