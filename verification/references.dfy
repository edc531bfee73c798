/**
 Source references of tool results: where they are looked for, and
 deduplication by first occurrence.
 */
module References {
  import opened Sequences
  import opened Wrappers

  /** The upstream reference shape. */
  datatype RefJson = RefJson(
    kind: string, id: string, postId: string, title: string, text: string, url: string, zh: string, en: string)

  datatype Reference = Reference(
    kind: string, id: string, title: string, content: string, url: string, zh: string, en: string)

  /** A workflow step of the old result format; None where the list does not parse. */
  datatype Step = Step(name: string, finalReferences: Option<seq<RefJson>>, references: Option<seq<RefJson>>)

  /**
   A tool result, parsed the ways the service tries: each field is None when the
   result does not parse that way.  steps is in the order the map is iterated in,
   with distinct names.
   */
  datatype ToolResult = ToolResult(
    nested: Option<seq<RefJson>>,
    direct: Option<seq<RefJson>>,
    steps: Option<seq<Step>>,
    directRecs: Option<seq<string>>,
    nestedRecs: Option<seq<string>>,
    nestedHasResults: Option<bool>,
    directHasResults: Option<bool>)

  /** The deduplication key: the URL, else the id, else the post id. */
  function Key(r: RefJson): string {
    if r.url != "" then r.url else if r.id != "" then r.id else r.postId
  }

  function Converted(r: RefJson): Reference {
    Reference(
      if r.kind == "" then "post" else r.kind,
      if r.id == "" then r.postId else r.id,
      r.title, r.text, r.url, r.zh, r.en)
  }

  /** The key as a reader of the output can compute it. */
  function OutputKey(r: Reference): string {
    if r.url != "" then r.url else r.id
  }

  /** Index i is the first with its key, and the key is not empty. */
  predicate IsFirst(raw: seq<RefJson>, i: nat)
    requires i < |raw|
  {
    Key(raw[i]) != "" && forall j :: 0 <= j < i ==> Key(raw[j]) != Key(raw[i])
  }

  function Deduplicated(raw: seq<RefJson>): seq<Reference> {
    if raw == [] then []
    else
      var n := |raw| - 1;
      Deduplicated(raw[..n]) + if IsFirst(raw, n) then [Converted(raw[n])] else []
  }

  /** The non-empty keys of a list. */
  function KeySet(raw: seq<RefJson>): set<string> {
    set r <- raw | Key(r) != "" :: Key(r)
  }

  lemma OneMoreIsFirst(before: seq<RefJson>, r: RefJson)
    ensures IsFirst(before + [r], |before|) <==> Key(r) != "" && Key(r) !in KeySet(before)
  {
    var all := before + [r];
    forall j | 0 <= j < |before| ensures all[j] == before[j] && all[j] in before {
    }
    if Key(r) != "" && Key(r) in KeySet(before) {
      var s :| s in before && Key(s) == Key(r);
      var j :| 0 <= j < |before| && before[j] == s;
      assert Key(all[j]) == Key(all[|before|]);
    }
  }

  lemma OneMoreKey(before: seq<RefJson>, r: RefJson)
    ensures KeySet(before + [r]) == KeySet(before) + if Key(r) != "" then {Key(r)} else {}
  {
    assert forall s :: s in before + [r] <==> s in before || s == r;
  }

  lemma OneMoreRef(before: seq<RefJson>, r: RefJson)
    ensures Deduplicated(before + [r]) ==
            Deduplicated(before) + if Key(r) != "" && Key(r) !in KeySet(before) then [Converted(r)] else []
  {
    OneMoreIsFirst(before, r);
    assert (before + [r])[..|before|] == before;
  }

  method DeduplicateRefs(raw: seq<RefJson>) returns (refs: seq<Reference>)
    ensures refs == Deduplicated(raw)
  {
    var seen: set<string> := {};
    refs := [];
    for i := 0 to |raw|
      invariant seen == KeySet(raw[..i])
      invariant refs == Deduplicated(raw[..i])
    {
      var r := raw[i];
      assert raw[..i + 1] == raw[..i] + [r];
      OneMoreRef(raw[..i], r);
      OneMoreKey(raw[..i], r);
      var key := r.url;
      if key == "" {
        key := r.id;
        if key == "" {
          key := r.postId;
        }
      }
      if key == "" || key in seen {
        continue;
      }
      seen := seen + {key};
      var id := r.id;
      if id == "" {
        id := r.postId;
      }
      var kind := r.kind;
      if kind == "" {
        kind := "post";
      }
      refs := refs + [Reference(kind, id, r.title, r.text, r.url, r.zh, r.en)];
    }
    assert raw[..|raw|] == raw;
  }

  // ----- what deduplication keeps -----

  /** The positions of first occurrences, ascending. */
  function FirstIndices(raw: seq<RefJson>): (ks: seq<nat>)
    ensures |ks| <= |raw|
    ensures forall a :: 0 <= a < |ks| ==> ks[a] < |raw|
  {
    if raw == [] then []
    else
      var n := |raw| - 1;
      FirstIndices(raw[..n]) + if IsFirst(raw, n) then [n] else []
  }

  lemma {:induction false} FirstIndicesAscend(raw: seq<RefJson>)
    ensures forall a, b :: 0 <= a < b < |FirstIndices(raw)| ==> FirstIndices(raw)[a] < FirstIndices(raw)[b]
  {
    if raw != [] {
      FirstIndicesAscend(raw[..|raw| - 1]);
    }
  }

  lemma IsFirstInPrefix(raw: seq<RefJson>, n: nat, i: nat)
    requires i < n <= |raw|
    ensures IsFirst(raw[..n], i) <==> IsFirst(raw, i)
  {
    assert forall j :: 0 <= j < n ==> raw[..n][j] == raw[j];
  }

  lemma {:induction false} FirstIndicesAreFirsts(raw: seq<RefJson>, i: nat)
    ensures i in FirstIndices(raw) <==> i < |raw| && IsFirst(raw, i)
  {
    if raw != [] {
      var n := |raw| - 1;
      FirstIndicesAreFirsts(raw[..n], i);
      if i < n {
        IsFirstInPrefix(raw, n, i);
      }
    }
  }

  lemma {:induction false} KeptAreAtFirstIndices(raw: seq<RefJson>)
    ensures |Deduplicated(raw)| == |FirstIndices(raw)|
    ensures forall a :: 0 <= a < |Deduplicated(raw)| ==> Deduplicated(raw)[a] == Converted(raw[FirstIndices(raw)[a]])
  {
    if raw != [] {
      KeptAreAtFirstIndices(raw[..|raw| - 1]);
    }
  }

  /** Exactly the first occurrence of every non-empty key is kept, in input order. */
  lemma KeepsFirstOccurrences(raw: seq<RefJson>)
    ensures forall i: nat :: i in FirstIndices(raw) <==> i < |raw| && IsFirst(raw, i)
    ensures forall a, b :: 0 <= a < b < |FirstIndices(raw)| ==> FirstIndices(raw)[a] < FirstIndices(raw)[b]
    ensures |Deduplicated(raw)| == |FirstIndices(raw)|
    ensures forall a :: 0 <= a < |Deduplicated(raw)| ==> Deduplicated(raw)[a] == Converted(raw[FirstIndices(raw)[a]])
  {
    FirstIndicesAscend(raw);
    KeptAreAtFirstIndices(raw);
    forall i: nat ensures i in FirstIndices(raw) <==> i < |raw| && IsFirst(raw, i) {
      FirstIndicesAreFirsts(raw, i);
    }
  }

  /** Recomputed from the output, the keys are non-empty and pairwise distinct. */
  lemma OutputKeysAreDistinct(raw: seq<RefJson>)
    ensures var out := Deduplicated(raw);
            && (forall a :: 0 <= a < |out| ==> OutputKey(out[a]) != "")
            && (forall a, b :: 0 <= a < b < |out| ==> OutputKey(out[a]) != OutputKey(out[b]))
  {
    KeepsFirstOccurrences(raw);
    var ks := FirstIndices(raw);
    forall a | 0 <= a < |ks| ensures IsFirst(raw, ks[a]) {
      assert ks[a] in ks;
    }
  }

  function OutputKeySet(refs: seq<Reference>): set<string> {
    set r <- refs :: OutputKey(r)
  }

  lemma {:induction false} FirstExists(raw: seq<RefJson>, i: nat) returns (first: nat)
    requires i < |raw| && Key(raw[i]) != ""
    ensures first <= i && Key(raw[first]) == Key(raw[i]) && IsFirst(raw, first)
    decreases i
  {
    if IsFirst(raw, i) {
      first := i;
    } else {
      var j :| 0 <= j < i && Key(raw[j]) == Key(raw[i]);
      first := FirstExists(raw, j);
    }
  }

  lemma KeyIsKept(raw: seq<RefJson>, r: RefJson)
    requires r in raw && Key(r) != ""
    ensures Key(r) in OutputKeySet(Deduplicated(raw))
  {
    var out, ks := Deduplicated(raw), FirstIndices(raw);
    KeepsFirstOccurrences(raw);
    var i :| 0 <= i < |raw| && raw[i] == r;
    var first := FirstExists(raw, i);
    var a :| 0 <= a < |ks| && ks[a] == first;
    assert out[a] in out && OutputKey(out[a]) == Key(r);
  }

  lemma KeyIsFromInput(raw: seq<RefJson>, a: nat)
    requires a < |Deduplicated(raw)|
    ensures OutputKey(Deduplicated(raw)[a]) in KeySet(raw)
  {
    var ks := FirstIndices(raw);
    KeepsFirstOccurrences(raw);
    OutputKeysAreDistinct(raw);
    assert raw[ks[a]] in raw && Key(raw[ks[a]]) == OutputKey(Deduplicated(raw)[a]);
  }

  /** No key is lost: the output's keys are the input's non-empty keys. */
  lemma KeySetIsKept(raw: seq<RefJson>)
    ensures OutputKeySet(Deduplicated(raw)) == KeySet(raw)
    ensures |Deduplicated(raw)| == |KeySet(raw)|
  {
    var out := Deduplicated(raw);
    forall r | r in raw && Key(r) != "" ensures Key(r) in OutputKeySet(out) {
      KeyIsKept(raw, r);
    }
    forall o | o in out ensures OutputKey(o) in KeySet(raw) {
      var a :| 0 <= a < |out| && out[a] == o;
      KeyIsFromInput(raw, a);
    }
    OutputKeysAreDistinct(raw);
    DistinctKeysCount(out);
  }

  lemma {:induction false} DistinctKeysCount(refs: seq<Reference>)
    requires forall a, b :: 0 <= a < b < |refs| ==> OutputKey(refs[a]) != OutputKey(refs[b])
    ensures |OutputKeySet(refs)| == |refs|
  {
    if refs != [] {
      var n := |refs| - 1;
      DistinctKeysCount(refs[..n]);
      assert refs == refs[..n] + [refs[n]];
      assert OutputKeySet(refs) == OutputKeySet(refs[..n]) + {OutputKey(refs[n])};
    }
  }

  // ----- where references are looked for -----

  predicate IsQueryStep(s: Step) {
    "query-" <= s.name
  }

  /** The query steps' references, joined in iteration order. */
  function QueryReferences(steps: seq<Step>): seq<RefJson> {
    if steps == [] then []
    else
      var last := steps[|steps| - 1];
      QueryReferences(steps[..|steps| - 1])
      + if IsQueryStep(last) && last.references.Some? then last.references.value else []
  }

  function SummaryReferences(steps: seq<Step>): Option<seq<RefJson>> {
    if steps == [] then None
    else if steps[0].name == "summary-step" then steps[0].finalReferences
    else SummaryReferences(steps[1..])
  }

  predicate NonEmpty(refs: Option<seq<RefJson>>) {
    refs.Some? && refs.value != []
  }

  /** The raw list extractReferences deduplicates. */
  function RawReferences(r: ToolResult): seq<RefJson> {
    if NonEmpty(r.nested) then r.nested.value
    else if NonEmpty(r.direct) then r.direct.value
    else if r.steps.None? then []
    else if NonEmpty(SummaryReferences(r.steps.value)) then SummaryReferences(r.steps.value).value
    else QueryReferences(r.steps.value)
  }

  function ExtractedReferences(result: Option<ToolResult>): seq<Reference> {
    if result.None? then [] else Deduplicated(RawReferences(result.value))
  }

  method ExtractReferences(result: Option<ToolResult>) returns (refs: seq<Reference>)
    ensures refs == ExtractedReferences(result)
  {
    if result.None? {
      return [];
    }
    var r := result.value;
    if r.nested.Some? && |r.nested.value| > 0 {
      refs := DeduplicateRefs(r.nested.value);
      return;
    }
    if r.direct.Some? && |r.direct.value| > 0 {
      refs := DeduplicateRefs(r.direct.value);
      return;
    }
    if r.steps.None? {
      return [];
    }
    var steps := r.steps.value;
    var summary := SummaryReferences(steps);
    if summary.Some? && |summary.value| > 0 {
      refs := DeduplicateRefs(summary.value);
      return;
    }
    var allRaw: seq<RefJson> := [];
    for i := 0 to |steps|
      invariant allRaw == QueryReferences(steps[..i])
    {
      assert steps[..i + 1][..i] == steps[..i];
      if "query-" <= steps[i].name && steps[i].references.Some? {
        allRaw := allRaw + steps[i].references.value;
      }
    }
    assert steps[..|steps|] == steps;
    refs := DeduplicateRefs(allRaw);
  }

  /** extractRecommendations: the top-level list if it has any, else the nested one. */
  function ExtractedRecommendations(result: Option<ToolResult>): seq<string> {
    if result.None? then []
    else if result.value.directRecs.Some? && result.value.directRecs.value != [] then result.value.directRecs.value
    else if result.value.nestedRecs.Some? then result.value.nestedRecs.value
    else []
  }

  /** extractHasResults: nested first, then the top level. */
  function ExtractedHasResults(result: Option<ToolResult>): Option<bool> {
    if result.None? then None
    else if result.value.nestedHasResults.Some? then result.value.nestedHasResults
    else result.value.directHasResults
  }

  /**
   Reference a of the output is, field by field, the a-th first occurrence of the
   input, with the post id for a missing id and "post" for a missing kind.
   */
  lemma OutputIsTheInputs(raw: seq<RefJson>, a: nat)
    requires a < |Deduplicated(raw)|
    ensures a < |FirstIndices(raw)|
    ensures var c, r := Deduplicated(raw)[a], raw[FirstIndices(raw)[a]];
            && c.title == r.title && c.content == r.text && c.url == r.url && c.zh == r.zh && c.en == r.en
            && (r.id != "" ==> c.id == r.id) && (r.id == "" ==> c.id == r.postId)
            && (r.kind != "" ==> c.kind == r.kind) && (r.kind == "" ==> c.kind == "post")
  {
    KeepsFirstOccurrences(raw);
  }

  /** No name before this one is the summary step's. */
  predicate IsSummary(steps: seq<Step>, i: nat) {
    i < |steps| && steps[i].name == "summary-step" && forall j :: 0 <= j < i ==> steps[j].name != "summary-step"
  }

  lemma {:induction false} SummaryIs(steps: seq<Step>, i: nat)
    requires IsSummary(steps, i)
    ensures SummaryReferences(steps) == steps[i].finalReferences
  {
    if i > 0 {
      assert IsSummary(steps[1..], i - 1);
      SummaryIs(steps[1..], i - 1);
    }
  }

  lemma {:induction false} NoSummary(steps: seq<Step>)
    requires forall s <- steps :: s.name != "summary-step"
    ensures SummaryReferences(steps) == None
  {
    if steps != [] {
      NoSummary(steps[1..]);
    }
  }

  /**
   The places references are taken from, the first that has any: final_references
   nested in the result, then beside it, then in the summary step, then the query
   steps' own lists.
   */
  lemma PlacesInOrder(r: ToolResult, i: nat)
    ensures ExtractedReferences(None) == []
    ensures r.nested.Some? && r.nested.value != [] ==> ExtractedReferences(Some(r)) == Deduplicated(r.nested.value)
    ensures (r.nested.None? || r.nested.value == []) && r.direct.Some? && r.direct.value != [] ==>
              ExtractedReferences(Some(r)) == Deduplicated(r.direct.value)
    ensures (r.nested.None? || r.nested.value == []) && (r.direct.None? || r.direct.value == []) ==>
              && (r.steps == None ==> ExtractedReferences(Some(r)) == [])
              && (r.steps.Some? && IsSummary(r.steps.value, i)
                  && r.steps.value[i].finalReferences.Some? && r.steps.value[i].finalReferences.value != [] ==>
                    ExtractedReferences(Some(r)) == Deduplicated(r.steps.value[i].finalReferences.value))
              && (r.steps.Some? && IsSummary(r.steps.value, i)
                  && (r.steps.value[i].finalReferences.None? || r.steps.value[i].finalReferences.value == []) ==>
                    ExtractedReferences(Some(r)) == Deduplicated(QueryReferences(r.steps.value)))
              && (r.steps.Some? && (forall s <- r.steps.value :: s.name != "summary-step") ==>
                    ExtractedReferences(Some(r)) == Deduplicated(QueryReferences(r.steps.value)))
  {
    if r.steps.Some? {
      if IsSummary(r.steps.value, i) {
        SummaryIs(r.steps.value, i);
      }
      if forall s <- r.steps.value :: s.name != "summary-step" {
        NoSummary(r.steps.value);
      }
    }
    assert Deduplicated([]) == [];
  }

  /** Recommendations: beside the result if there are any, else nested.  hasResults: nested if it is there, else beside. */
  lemma OtherPlacesInOrder(r: ToolResult)
    ensures ExtractedRecommendations(None) == [] && ExtractedHasResults(None) == None
    ensures r.directRecs.Some? && r.directRecs.value != [] ==> ExtractedRecommendations(Some(r)) == r.directRecs.value
    ensures r.directRecs.None? || r.directRecs.value == [] ==>
              ExtractedRecommendations(Some(r)) == (if r.nestedRecs.Some? then r.nestedRecs.value else [])
    ensures r.nestedHasResults.Some? ==> ExtractedHasResults(Some(r)) == r.nestedHasResults
    ensures r.nestedHasResults.None? ==> ExtractedHasResults(Some(r)) == r.directHasResults
  {
  }

  // ----- iteration order -----

  lemma {:induction false} QueryReferencesAre(steps: seq<Step>, r: RefJson)
    ensures r in QueryReferences(steps) <==>
            exists s <- steps :: "query-" <= s.name && s.references.Some? && r in s.references.value
  {
    if steps != [] {
      var n := |steps| - 1;
      QueryReferencesAre(steps[..n], r);
      assert steps == steps[..n] + [steps[n]];
    }
  }

  /** In the fallback to the query steps, the keys kept do not depend on the map's iteration order. */
  lemma FallbackKeysIgnoreOrder(steps: seq<Step>, other: seq<Step>)
    requires forall s :: s in steps <==> s in other
    ensures var a, b := Deduplicated(QueryReferences(steps)), Deduplicated(QueryReferences(other));
            OutputKeySet(a) == OutputKeySet(b) && |a| == |b|
  {
    var x, y := QueryReferences(steps), QueryReferences(other);
    forall r ensures r in x <==> r in y {
      QueryReferencesAre(steps, r);
      QueryReferencesAre(other, r);
    }
    assert KeySet(x) == KeySet(y);
    KeySetIsKept(x);
    KeySetIsKept(y);
  }

  /** The references kept, however they are ordered. */
  function Kept(steps: seq<Step>): set<Reference> {
    set r <- Deduplicated(QueryReferences(steps))
  }

  predicate HasReferences(s: Step) {
    IsQueryStep(s) && s.references.Some?
  }

  /** The step's own reference list has its first reference with that key at i. */
  predicate FirstInStep(s: Step, i: nat) {
    HasReferences(s) && i < |s.references.value| && IsFirst(s.references.value, i)
  }

  /** Wherever two query steps have a key in common, the first reference each has for it says the same. */
  ghost predicate StepsAgree(steps: seq<Step>) {
    forall a, b, i: nat, j: nat ::
      (&& a in steps && b in steps && FirstInStep(a, i) && FirstInStep(b, j)
       && Key(a.references.value[i]) == Key(b.references.value[j])) ==>
        Converted(a.references.value[i]) == Converted(b.references.value[j])
  }

  lemma KeptAre(raw: seq<RefJson>, r: Reference)
    ensures r in Deduplicated(raw) <==> exists i :: 0 <= i < |raw| && IsFirst(raw, i) && r == Converted(raw[i])
  {
    var out, ks := Deduplicated(raw), FirstIndices(raw);
    KeepsFirstOccurrences(raw);
    if r in out {
      var a :| 0 <= a < |out| && out[a] == r;
      assert ks[a] in ks;
      assert IsFirst(raw, ks[a]) && r == Converted(raw[ks[a]]);
    }
    if i :| 0 <= i < |raw| && IsFirst(raw, i) && r == Converted(raw[i]) {
      assert i in ks;
      var a :| 0 <= a < |ks| && ks[a] == i;
      assert out[a] == r;
    }
  }

  lemma FirstInLonger(xs: seq<RefJson>, ys: seq<RefJson>, i: nat)
    requires i < |xs|
    ensures IsFirst(xs + ys, i) <==> IsFirst(xs, i)
  {
    assert forall j :: 0 <= j <= i ==> (xs + ys)[j] == xs[j];
  }

  lemma FirstInTail(xs: seq<RefJson>, ys: seq<RefJson>, i: nat)
    requires i < |ys| && IsFirst(xs + ys, |xs| + i)
    ensures IsFirst(ys, i)
  {
    assert forall j :: 0 <= j <= i ==> (xs + ys)[|xs| + j] == ys[j];
  }

  /** A reference that is the first of its key among all query steps is the first of its key in its own step. */
  lemma {:induction false} FirstIsFirstInItsStep(steps: seq<Step>, i: nat) returns (s: Step, j: nat)
    requires i < |QueryReferences(steps)| && IsFirst(QueryReferences(steps), i)
    ensures s in steps && FirstInStep(s, j) && s.references.value[j] == QueryReferences(steps)[i]
  {
    var n := |steps| - 1;
    var before, last := QueryReferences(steps[..n]), steps[n];
    var tail := if HasReferences(last) then last.references.value else [];
    assert QueryReferences(steps) == before + tail;
    if i < |before| {
      FirstInLonger(before, tail, i);
      s, j := FirstIsFirstInItsStep(steps[..n], i);
    } else {
      FirstInTail(before, tail, i - |before|);
      s, j := last, i - |before|;
    }
  }

  lemma AgreeingStepsKeepTheSame(steps: seq<Step>, other: seq<Step>)
    requires StepsAgree(steps) && forall s :: s in steps <==> s in other
    ensures Kept(steps) <= Kept(other)
  {
    var x, y := QueryReferences(steps), QueryReferences(other);
    forall r | r in Kept(steps) ensures r in Kept(other) {
      KeptAre(x, r);
      var i :| 0 <= i < |x| && IsFirst(x, i) && r == Converted(x[i]);
      var a, k := FirstIsFirstInItsStep(steps, i);
      SameReferences(steps, other, x[i]);
      var at :| 0 <= at < |y| && y[at] == x[i];
      var first := FirstExists(y, at);
      var b, l := FirstIsFirstInItsStep(other, first);
      KeptAre(y, Converted(y[first]));
    }
  }

  lemma SameReferences(steps: seq<Step>, other: seq<Step>, r: RefJson)
    requires forall s :: s in steps <==> s in other
    ensures r in QueryReferences(steps) <==> r in QueryReferences(other)
  {
    QueryReferencesAre(steps, r);
    QueryReferencesAre(other, r);
  }

  lemma OneMoreStep(steps: seq<Step>, s: Step)
    ensures QueryReferences(steps + [s]) == QueryReferences(steps) + if HasReferences(s) then s.references.value else []
  {
    assert (steps + [s])[..|steps|] == steps;
  }

  lemma {:induction false} QueryReferencesJoin(xs: seq<Step>, ys: seq<Step>)
    ensures QueryReferences(xs + ys) == QueryReferences(xs) + QueryReferences(ys)
  {
    if ys == [] {
      assert xs + [] == xs;
      Unit(QueryReferences(xs));
    } else {
      var n := |ys| - 1;
      var before, last := ys[..n], ys[n];
      assert ys == before + [last] && xs + ys == (xs + before) + [last];
      QueryReferencesJoin(xs, before);
      OneMoreStep(xs + before, last);
      OneMoreStep(before, last);
      Assoc(QueryReferences(xs), QueryReferences(before), if HasReferences(last) then last.references.value else []);
    }
  }

  /** The first step's first reference of a key is the one kept. */
  lemma FirstStepWins(s: Step, rest: seq<Step>, i: nat)
    requires FirstInStep(s, i)
    ensures Converted(s.references.value[i]) in Kept([s] + rest)
  {
    var refs := s.references.value;
    var all := QueryReferences([s] + rest);
    QueryReferencesJoin([s], rest);
    assert [s][..0] == [] && QueryReferences([s]) == refs;
    FirstInLonger(refs, QueryReferences(rest), i);
    assert IsFirst(all, i) && all[i] == refs[i];
    KeptAre(all, Converted(refs[i]));
  }

  /** Only one reference of a key is kept. */
  lemma OnePerKey(raw: seq<RefJson>, r: Reference, q: Reference)
    requires r in Deduplicated(raw) && q in Deduplicated(raw) && OutputKey(r) == OutputKey(q)
    ensures r == q
  {
    var out := Deduplicated(raw);
    OutputKeysAreDistinct(raw);
    var a :| 0 <= a < |out| && out[a] == r;
    var b :| 0 <= b < |out| && out[b] == q;
  }

  lemma WithFirst(steps: seq<Step>, s: Step) returns (rest: seq<Step>)
    requires s in steps
    ensures multiset([s] + rest) == multiset(steps)
    ensures forall t :: t in steps && t != s ==> t in rest
  {
    var i :| 0 <= i < |steps| && steps[i] == s;
    rest := steps[..i] + steps[i + 1..];
    assert steps == steps[..i] + [s] + steps[i + 1..];
  }

  /** Two steps that disagree: with each in front, a different reference is kept. */
  lemma DisagreeingStepsKeepOther(steps: seq<Step>) returns (one: seq<Step>, two: seq<Step>)
    requires !StepsAgree(steps)
    ensures multiset(one) == multiset(steps) && multiset(two) == multiset(steps)
    ensures Kept(one) != Kept(two)
  {
    var a, b, i: nat, j: nat :| a in steps && b in steps && FirstInStep(a, i) && FirstInStep(b, j)
      && Key(a.references.value[i]) == Key(b.references.value[j])
      && Converted(a.references.value[i]) != Converted(b.references.value[j]);
    var r, q := Converted(a.references.value[i]), Converted(b.references.value[j]);
    var afterA := WithFirst(steps, a);
    var afterB := WithFirst(steps, b);
    one, two := [a] + afterA, [b] + afterB;
    FirstStepWins(a, afterA, i);
    FirstStepWins(b, afterB, j);
    if Kept(one) == Kept(two) {
      OnePerKey(QueryReferences(one), r, q);
    }
  }

  /**
   Exactly when the fallback to the query steps keeps the same references whatever
   order the map is iterated in: when the steps agree.
   */
  lemma FallbackIgnoresOrderIff(steps: seq<Step>)
    ensures (forall other :: multiset(other) == multiset(steps) ==> Kept(other) == Kept(steps)) <==> StepsAgree(steps)
  {
    if StepsAgree(steps) {
      forall other | multiset(other) == multiset(steps) ensures Kept(other) == Kept(steps) {
        forall s ensures s in steps <==> s in other {
          assert s in steps <==> s in multiset(steps);
          assert s in other <==> s in multiset(other);
        }
        AgreeingStepsKeepTheSame(steps, other);
        AgreeingStepsKeepTheSame(other, steps);
      }
    } else {
      var one, two := DisagreeingStepsKeepOther(steps);
      assert Kept(one) != Kept(steps) || Kept(two) != Kept(steps);
    }
  }

  /** Such steps exist: which of two references with one key is kept can depend on the iteration order. */
  lemma FallbackContentCanDependOnOrder() returns (steps: seq<Step>, other: seq<Step>)
    ensures multiset(steps) == multiset(other)
    ensures Deduplicated(QueryReferences(steps)) != Deduplicated(QueryReferences(other))
  {
    var r := RefJson("", "", "", "first", "", "u", "", "");
    var q := r.(title := "second");
    var a, b := Step("query-a", None, Some([r])), Step("query-b", None, Some([q]));
    assert a in [a, b] && b in [a, b];
    assert FirstInStep(a, 0) && FirstInStep(b, 0);
    assert Converted(a.references.value[0]).title != Converted(b.references.value[0]).title;
    steps, other := DisagreeingStepsKeepOther([a, b]);
  }
}
