/**
  The masked-text position map and the recovery of source spans (app/ai/gateway.py:444-523). The matches of the
  sensitive-number pattern are given as intervals.
*/
module MaskedText {
  import opened Common

  datatype Interval = Interval(start: nat, end: nat)

  const PLACEHOLDER: string := "[已遮蔽敏感号码]"

  /** What the iterator over pattern matches yields: non-empty, disjoint, left to right, inside the text. */
  ghost predicate AreMatches(text: string, hidden: seq<Interval>) {
    && (forall k :: 0 <= k < |hidden| ==> hidden[k].start < hidden[k].end <= |text|)
    && forall i, j :: 0 <= i < j < |hidden| ==> hidden[i].end <= hidden[j].start
  }

  /** A position of the source text that is strictly inside no sensitive interval. */
  ghost predicate IsCut(hidden: seq<Interval>, p: nat) {
    forall k :: 0 <= k < |hidden| ==> !(hidden[k].start < p < hidden[k].end)
  }

  ghost predicate HiddenFrom(hidden: seq<Interval>, p: nat, k: nat) {
    k < |hidden| && hidden[k].start == p
  }

  /** The reference definition of masking: read a slice left to right, one character or one interval at a time. */
  ghost function Masked(text: string, hidden: seq<Interval>, lo: nat, hi: nat): string
    requires AreMatches(text, hidden) && lo <= hi <= |text| && IsCut(hidden, hi)
    decreases hi - lo
  {
    if lo == hi then ""
    else if exists k: nat :: HiddenFrom(hidden, lo, k) then
      var k: nat :| HiddenFrom(hidden, lo, k);
      PLACEHOLDER + Masked(text, hidden, hidden[k].end, hi)
    else [text[lo]] + Masked(text, hidden, lo + 1, hi)
  }

  /** Masking the whole text is masking its parts, as long as the parts meet at cuts. */
  lemma {:induction false} MaskedConcatenates(text: string, hidden: seq<Interval>, lo: nat, mid: nat, hi: nat)
    requires AreMatches(text, hidden) && lo <= mid <= hi <= |text| && IsCut(hidden, mid) && IsCut(hidden, hi)
    ensures Masked(text, hidden, lo, hi) == Masked(text, hidden, lo, mid) + Masked(text, hidden, mid, hi)
    decreases mid - lo
  {
    if lo < mid {
      if k: nat :| HiddenFrom(hidden, lo, k) {
        OneMatchPerStart(text, hidden, lo, k);
        MaskedConcatenates(text, hidden, hidden[k].end, mid, hi);
      } else {
        MaskedConcatenates(text, hidden, lo + 1, mid, hi);
      }
    }
  }

  lemma OneMatchPerStart(text: string, hidden: seq<Interval>, p: nat, k: nat)
    requires AreMatches(text, hidden) && HiddenFrom(hidden, p, k)
    ensures forall j: nat :: HiddenFrom(hidden, p, j) ==> j == k
  {
    assert forall i, j :: 0 <= i < j < |hidden| ==> hidden[i].start < hidden[j].start;
  }

  /** Every boundary between a masked prefix and the rest answers to exactly one cut of the source. */
  lemma MaskedGrows(text: string, hidden: seq<Interval>, p: nat, q: nat)
    requires AreMatches(text, hidden) && p < q <= |text| && IsCut(hidden, p) && IsCut(hidden, q)
    ensures |Masked(text, hidden, 0, p)| < |Masked(text, hidden, 0, q)|
    ensures Masked(text, hidden, 0, p) <= Masked(text, hidden, 0, q)
  {
    MaskedConcatenates(text, hidden, 0, p, q);
  }

  lemma {:induction false} MaskedVisible(text: string, hidden: seq<Interval>, lo: nat, hi: nat)
    requires AreMatches(text, hidden) && lo <= hi <= |text| && IsCut(hidden, hi)
    requires forall k :: 0 <= k < |hidden| ==> hidden[k].end <= lo || hi <= hidden[k].start
    ensures Masked(text, hidden, lo, hi) == text[lo..hi]
    decreases hi - lo
  {
    if lo < hi {
      MaskedVisible(text, hidden, lo + 1, hi);
      assert text[lo..hi] == [text[lo]] + text[lo + 1..hi];
    }
  }

  /**
    `toSource` maps exactly the boundaries of the masked text up to `upTo` that separate whole intervals:
    boundary i stands for source position p if and only if p is a cut and masking the source up to p gives i characters.
  */
  ghost predicate IsBoundaryMap(
    text: string, hidden: seq<Interval>, upTo: nat, safe: string, toSource: seq<Option<nat>>)
    requires AreMatches(text, hidden)
  {
    && upTo <= |text| && IsCut(hidden, upTo)
    && safe == Masked(text, hidden, 0, upTo)
    && |toSource| == |safe| + 1
    && (forall i :: 0 <= i < |toSource| && toSource[i].Some? ==> StandsFor(text, hidden, upTo, i, toSource[i].value))
    && forall p: nat :: p <= upTo && IsCut(hidden, p) ==> Some(p) in toSource
  }

  ghost predicate StandsFor(text: string, hidden: seq<Interval>, upTo: nat, i: nat, p: nat)
    requires AreMatches(text, hidden) && upTo <= |text|
  {
    p <= upTo && IsCut(hidden, p) && |Masked(text, hidden, 0, p)| == i
  }

  /** How one more piece of masked text extends the map. */
  lemma AppendPiece(
    text: string, hidden: seq<Interval>, lo: nat, hi: nat,
    safe: string, toSource: seq<Option<nat>>, piece: string, more: seq<Option<nat>>)
    requires AreMatches(text, hidden) && lo <= hi <= |text| && IsCut(hidden, lo) && IsCut(hidden, hi)
    requires IsBoundaryMap(text, hidden, lo, safe, toSource)
    requires Masked(text, hidden, 0, hi) == safe + piece && |more| == |piece|
    requires forall i :: 0 <= i < |more| && more[i].Some? ==>
               StandsFor(text, hidden, hi, |safe| + 1 + i, more[i].value)
    requires forall p: nat :: lo < p <= hi && IsCut(hidden, p) ==> Some(p) in more
    ensures IsBoundaryMap(text, hidden, hi, safe + piece, toSource + more)
  {
    var after := toSource + more;
    forall i | 0 <= i < |after| && after[i].Some?
      ensures StandsFor(text, hidden, hi, i, after[i].value)
    {
      if i < |toSource| {
        assert StandsFor(text, hidden, lo, i, toSource[i].value);
      } else {
        assert after[i] == more[i - |toSource|];
      }
    }
    forall p: nat | p <= hi && IsCut(hidden, p)
      ensures Some(p) in after
    {
      assert Some(p) in toSource || Some(p) in more;
    }
  }

  /** The boundaries a visible piece adds: one per character. */
  function VisibleBoundaries(lo: nat, hi: nat): (r: seq<Option<nat>>)
    requires lo <= hi
    ensures |r| == hi - lo && forall i :: 0 <= i < |r| ==> r[i] == Some(lo + 1 + i)
  {
    seq(hi - lo, offset requires 0 <= offset => Some(lo + 1 + offset))
  }

  /** The boundaries a placeholder adds: none inside it, and the end of the interval behind it. */
  function HiddenBoundaries(end: nat): (r: seq<Option<nat>>)
    ensures |r| == |PLACEHOLDER| && r[|r| - 1] == Some(end)
    ensures forall i :: 0 <= i < |r| - 1 ==> r[i] == None
  {
    seq(|PLACEHOLDER| - 1, _ => None) + [Some(end)]
  }

  lemma AppendVisible(
    text: string, hidden: seq<Interval>, lo: nat, hi: nat, safe: string, toSource: seq<Option<nat>>)
    requires AreMatches(text, hidden) && IsBoundaryMap(text, hidden, lo, safe, toSource) && lo <= hi <= |text|
    requires forall k :: 0 <= k < |hidden| ==> hidden[k].end <= lo || hi <= hidden[k].start
    ensures IsBoundaryMap(text, hidden, hi, safe + text[lo..hi], toSource + VisibleBoundaries(lo, hi))
  {
    var more := VisibleBoundaries(lo, hi);
    VisiblePrefix(text, hidden, lo, hi);
    forall i | 0 <= i < |more|
      ensures StandsFor(text, hidden, hi, |safe| + 1 + i, more[i].value)
    {
      VisiblePrefix(text, hidden, lo, lo + 1 + i);
    }
    forall p: nat | lo < p <= hi
      ensures Some(p) in more
    {
      assert more[p - lo - 1] == Some(p);
    }
    AppendPiece(text, hidden, lo, hi, safe, toSource, text[lo..hi], more);
  }

  lemma VisiblePrefix(text: string, hidden: seq<Interval>, lo: nat, p: nat)
    requires AreMatches(text, hidden) && lo <= p <= |text| && IsCut(hidden, lo)
    requires forall k :: 0 <= k < |hidden| ==> hidden[k].end <= lo || p <= hidden[k].start
    ensures IsCut(hidden, p) && Masked(text, hidden, 0, p) == Masked(text, hidden, 0, lo) + text[lo..p]
  {
    MaskedConcatenates(text, hidden, 0, lo, p);
    MaskedVisible(text, hidden, lo, p);
  }

  lemma AppendHidden(text: string, hidden: seq<Interval>, k: nat, safe: string, toSource: seq<Option<nat>>)
    requires AreMatches(text, hidden) && k < |hidden| && IsBoundaryMap(text, hidden, hidden[k].start, safe, toSource)
    ensures IsBoundaryMap(text, hidden, hidden[k].end, safe + PLACEHOLDER, toSource + HiddenBoundaries(hidden[k].end))
  {
    var lo, hi := hidden[k].start, hidden[k].end;
    var more := HiddenBoundaries(hi);
    assert IsCut(hidden, hi) by {
      forall j | 0 <= j < |hidden| ensures !(hidden[j].start < hi < hidden[j].end) {
        assert j < k || j == k || k < j;
      }
    }
    HiddenPrefix(text, hidden, k);
    assert more[|more| - 1] == Some(hi);
    forall p: nat | lo < p <= hi && IsCut(hidden, p)
      ensures p == hi
    {
      assert !(hidden[k].start < p < hidden[k].end);
    }
    AppendPiece(text, hidden, lo, hi, safe, toSource, PLACEHOLDER, more);
  }

  lemma HiddenPrefix(text: string, hidden: seq<Interval>, k: nat)
    requires AreMatches(text, hidden) && k < |hidden| && IsCut(hidden, hidden[k].start) && IsCut(hidden, hidden[k].end)
    ensures Masked(text, hidden, 0, hidden[k].end) == Masked(text, hidden, 0, hidden[k].start) + PLACEHOLDER
  {
    var lo, hi := hidden[k].start, hidden[k].end;
    MaskedConcatenates(text, hidden, 0, lo, hi);
    assert HiddenFrom(hidden, lo, k);
    OneMatchPerStart(text, hidden, lo, k);
    assert Masked(text, hidden, hi, hi) == "";
  }

  /** `_mask_sensitive_source_text` */
  method MaskSensitiveSourceText(text: string, hidden: seq<Interval>)
    returns (safe: string, toSource: seq<Option<nat>>)
    requires AreMatches(text, hidden)
    ensures IsBoundaryMap(text, hidden, |text|, safe, toSource)
  {
    safe, toSource := "", [Some(0)];
    var sourceCursor: nat := 0;
    for n := 0 to |hidden|
      invariant sourceCursor == if n == 0 then 0 else hidden[n - 1].end
      invariant IsBoundaryMap(text, hidden, sourceCursor, safe, toSource)
    {
      var match_ := hidden[n];
      AppendVisible(text, hidden, sourceCursor, match_.start, safe, toSource);
      var visible := text[sourceCursor..match_.start];
      safe := safe + visible;
      toSource := toSource + VisibleBoundaries(sourceCursor, match_.start);
      AppendHidden(text, hidden, n, safe, toSource);
      safe := safe + PLACEHOLDER;
      toSource := toSource + HiddenBoundaries(match_.end);
      sourceCursor := match_.end;
    }
    AppendVisible(text, hidden, sourceCursor, |text|, safe, toSource);
    safe := safe + text[sourceCursor..];
    toSource := toSource + VisibleBoundaries(sourceCursor, |text|);
    assert text[sourceCursor..] == text[sourceCursor..|text|];
  }

  /** The map starts at 0, ends at the end of the source, and is strictly increasing where it is defined. */
  lemma BoundaryMapIncreases(text: string, hidden: seq<Interval>, safe: string, toSource: seq<Option<nat>>)
    requires AreMatches(text, hidden) && IsBoundaryMap(text, hidden, |text|, safe, toSource)
    ensures |toSource| == |safe| + 1 && toSource[0] == Some(0) && toSource[|safe|] == Some(|text|)
    ensures forall i, j :: 0 <= i < j < |toSource| && toSource[i].Some? && toSource[j].Some? ==>
              toSource[i].value < toSource[j].value
  {
    assert IsCut(hidden, 0);
    assert Masked(text, hidden, 0, 0) == "";
    forall i, j | 0 <= i < j < |toSource| && toSource[i].Some? && toSource[j].Some?
      ensures toSource[i].value < toSource[j].value
    {
      var p, q := toSource[i].value, toSource[j].value;
      assert StandsFor(text, hidden, |text|, i, p) && StandsFor(text, hidden, |text|, j, q);
      if q < p { MaskedGrows(text, hidden, q, p); }
    }
  }

  // ---------- recovering a span ----------

  predicate OccursAt(span: string, text: string, p: nat) {
    p + |span| <= |text| && text[p..p + |span|] == span
  }

  /** The leftmost occurrence from a position on. */
  function FirstMatch(span: string, text: string, lo: nat): (r: Option<nat>)
    ensures r.Some? ==> lo <= r.value && OccursAt(span, text, r.value)
    ensures r.Some? ==> forall q: nat :: lo <= q < r.value ==> !OccursAt(span, text, q)
    ensures r.None? ==> forall q: nat :: lo <= q ==> !OccursAt(span, text, q)
    decreases |text| + 1 - lo
  {
    if lo + |span| > |text| then None
    else if OccursAt(span, text, lo) then Some(lo)
    else FirstMatch(span, text, lo + 1)
  }

  /** The matches `re.finditer` yields: each search resumes after the previous match, one further after an empty one. */
  function Matches(span: string, text: string, lo: nat): seq<nat>
    decreases |text| + 1 - lo
  {
    match FirstMatch(span, text, lo)
    case None => []
    case Some(at) => [at] + Matches(span, text, at + if span == "" then 1 else |span|)
  }

  /** The position where a single match is found: the first occurrence, with none starting at or after its end. */
  ghost predicate IsOnlyMatch(span: string, text: string, p: nat) {
    && OccursAt(span, text, p)
    && (forall q: nat :: q < p ==> !OccursAt(span, text, q))
    && forall q: nat :: q > p && q >= p + |span| ==> !OccursAt(span, text, q)
  }

  /** "Unique" means unique among non-overlapping matches. */
  lemma OneMatchMeansOnlyMatch(span: string, text: string, p: nat)
    ensures Matches(span, text, 0) == [p] <==> IsOnlyMatch(span, text, p)
  {
    var first := FirstMatch(span, text, 0);
    if first.Some? {
      var at := first.value;
      var resume := at + if span == "" then 1 else |span|;
      var next := FirstMatch(span, text, resume);
      assert Matches(span, text, 0) == [at] + Matches(span, text, resume);
      assert |Matches(span, text, resume)| == 0 <==> next.None?;
      assert |Matches(span, text, 0)| == 1 ==> Matches(span, text, 0) == [at];
      assert IsOnlyMatch(span, text, p) ==> p == at;
      assert IsOnlyMatch(span, text, at) <==> next.None?;
    } else {
      assert !OccursAt(span, text, p);
    }
  }

  /** An overlapping second occurrence does not make a span ambiguous. */
  lemma OverlapsCountOnce()
    ensures OccursAt("aa", "aaa", 0) && OccursAt("aa", "aaa", 1) && Matches("aa", "aaa", 0) == [0]
  {
    assert IsOnlyMatch("aa", "aaa", 0);
    OneMatchMeansOnlyMatch("aa", "aaa", 0);
  }

  /** Source positions that the span of the masked text stands for. */
  ghost predicate IsSourceOf(text: string, hidden: seq<Interval>, span: string, p: nat, q: nat)
    requires AreMatches(text, hidden)
  {
    && p <= q <= |text| && IsCut(hidden, p) && IsCut(hidden, q)
    && IsOnlyMatch(span, Masked(text, hidden, 0, |text|), |Masked(text, hidden, 0, p)|)
    && |Masked(text, hidden, 0, q)| == |Masked(text, hidden, 0, p)| + |span|
  }

  ghost predicate HasSource(text: string, hidden: seq<Interval>, span: string)
    requires AreMatches(text, hidden)
  {
    exists p, q :: IsSourceOf(text, hidden, span, p, q)
  }

  /** `source` is what the span stands for, and masking that slice of the source gives back the span. */
  ghost predicate IsSourceText(text: string, hidden: seq<Interval>, span: string, source: string)
    requires AreMatches(text, hidden)
  {
    forall p: nat, q: nat :: IsSourceOf(text, hidden, span, p, q) ==>
      source == text[p..q] && Masked(text, hidden, p, q) == span
  }

  /** Masking the recovered slice gives exactly the span, and a span has at most one source. */
  lemma SourceMasksToSpan(text: string, hidden: seq<Interval>, span: string, p: nat, q: nat)
    requires AreMatches(text, hidden) && IsSourceOf(text, hidden, span, p, q)
    ensures Masked(text, hidden, p, q) == span
    ensures forall p', q' :: IsSourceOf(text, hidden, span, p', q') ==> p' == p && q' == q
  {
    MaskedConcatenates(text, hidden, 0, p, q);
    MaskedConcatenates(text, hidden, 0, q, |text|);
    var safe := Masked(text, hidden, 0, |text|);
    var at := |Masked(text, hidden, 0, p)|;
    assert safe[at..at + |span|] == Masked(text, hidden, p, q);
    forall p', q' | IsSourceOf(text, hidden, span, p', q')
      ensures p' == p && q' == q
    {
      var at' := |Masked(text, hidden, 0, p')|;
      OneMatchMeansOnlyMatch(span, safe, at);
      OneMatchMeansOnlyMatch(span, safe, at');
      assert at == at';
      SameLengthSameCut(text, hidden, p, p');
      SameLengthSameCut(text, hidden, q, q');
    }
  }

  lemma SameLengthSameCut(text: string, hidden: seq<Interval>, p: nat, q: nat)
    requires AreMatches(text, hidden) && p <= |text| && q <= |text| && IsCut(hidden, p) && IsCut(hidden, q)
    requires |Masked(text, hidden, 0, p)| == |Masked(text, hidden, 0, q)|
    ensures p == q
  {
    if p < q { MaskedGrows(text, hidden, p, q); }
    if q < p { MaskedGrows(text, hidden, q, p); }
  }

  /** `_source_for_masked_span`: the source slice of a span, or None when there is no unique whole one. */
  method SourceForMaskedSpan(span: string, safeSourceText: string, sourceText: string, hidden: seq<Interval>)
    returns (source: Option<string>)
    requires AreMatches(sourceText, hidden)
    ensures source.Some? <==>
              safeSourceText == Masked(sourceText, hidden, 0, |sourceText|) &&
              HasSource(sourceText, hidden, span)
    ensures source.Some? ==> IsSourceText(sourceText, hidden, span, source.value)
  {
    var expectedSafeText, boundaries := MaskSensitiveSourceText(sourceText, hidden);
    if expectedSafeText != safeSourceText {
      return None;
    }
    var matches := Matches(span, safeSourceText, 0);
    forall p, q | IsSourceOf(sourceText, hidden, span, p, q)
      ensures matches == [|Masked(sourceText, hidden, 0, p)|]
    {
      OneMatchMeansOnlyMatch(span, safeSourceText, |Masked(sourceText, hidden, 0, p)|);
    }
    if |matches| != 1 {
      return None;
    }
    OneMatchMeansOnlyMatch(span, safeSourceText, matches[0]);
    var sourceStart, sourceEnd := boundaries[matches[0]], boundaries[matches[0] + |span|];
    if sourceStart.None? || sourceEnd.None? || sourceEnd.value < sourceStart.value {
      BoundaryMapIncreases(sourceText, hidden, safeSourceText, boundaries);
      return None;
    }
    source := Some(sourceText[sourceStart.value..sourceEnd.value]);
    assert IsSourceOf(sourceText, hidden, span, sourceStart.value, sourceEnd.value) by {
      assert StandsFor(sourceText, hidden, |sourceText|, matches[0], sourceStart.value);
      assert StandsFor(sourceText, hidden, |sourceText|, matches[0] + |span|, sourceEnd.value);
    }
    SourceMasksToSpan(sourceText, hidden, span, sourceStart.value, sourceEnd.value);
  }

  // ---------- the segments of one reply ----------

  datatype Segment = Segment(index: nat, span: string)

  predicate DistinctIndexes(segments: seq<Segment>) {
    forall i, j :: 0 <= i < j < |segments| ==> segments[i].index != segments[j].index
  }

  /** A segment that can be traced to one whole piece of the source. */
  ghost predicate IsTraceable(segment: Segment, safeText: string, raw: string, hidden: seq<Interval>)
    requires AreMatches(raw, hidden)
  {
    safeText == Masked(raw, hidden, 0, |raw|) && HasSource(raw, hidden, segment.span)
  }

  lemma TraceableIsSubstring(segment: Segment, safeText: string, raw: string, hidden: seq<Interval>)
    requires AreMatches(raw, hidden) && IsTraceable(segment, safeText, raw, hidden)
    ensures IsSubstring(segment.span, safeText)
  {
    var p, q :| IsSourceOf(raw, hidden, segment.span, p, q);
    assert OccursAt(segment.span, safeText, |Masked(raw, hidden, 0, p)|);
  }

  /** The loop of `_prepare_segment_patches`: it gives up at the first segment without a source. */
  method TraceAll(segments: seq<Segment>, safeText: string, raw: string, hidden: seq<Interval>)
    returns (traced: Option<seq<string>>)
    requires AreMatches(raw, hidden)
    ensures traced.Some? <==> forall k :: 0 <= k < |segments| ==> IsTraceable(segments[k], safeText, raw, hidden)
    ensures traced.Some? ==> IsTrace(segments, traced.value, raw, hidden)
  {
    var sources: seq<string> := [];
    for k := 0 to |segments|
      invariant IsTrace(segments[..k], sources, raw, hidden)
      invariant forall j :: 0 <= j < k ==> IsTraceable(segments[j], safeText, raw, hidden)
    {
      var source := SourceForMaskedSpan(segments[k].span, safeText, raw, hidden);
      if source.None? {
        assert !IsTraceable(segments[k], safeText, raw, hidden);
        return None;
      }
      sources := sources + [source.value];
    }
    assert segments[..|segments|] == segments;
    traced := Some(sources);
  }

  ghost predicate IsTrace(segments: seq<Segment>, sources: seq<string>, raw: string, hidden: seq<Interval>)
    requires AreMatches(raw, hidden)
  {
    && |sources| == |segments|
    && forall k :: 0 <= k < |sources| ==> IsSourceText(raw, hidden, segments[k].span, sources[k])
  }

  /** The part of `_prepare_segment_patches` that accepts or rejects a split: all segments or none. */
  method SegmentSources(segments: seq<Segment>, safeText: string, raw: string, hidden: seq<Interval>)
    returns (sources: seq<string>)
    requires AreMatches(raw, hidden)
    ensures sources != [] <==>
              segments != [] && DistinctIndexes(segments) &&
              forall k :: 0 <= k < |segments| ==> IsTraceable(segments[k], safeText, raw, hidden)
    ensures sources != [] ==> IsTrace(segments, sources, raw, hidden)
  {
    if segments == [] || !DistinctIndexes(segments) {
      return [];
    }
    var outside := exists k :: 0 <= k < |segments| && !IsSubstring(segments[k].span, safeText);
    if outside {
      ghost var k :| 0 <= k < |segments| && !IsSubstring(segments[k].span, safeText);
      if IsTraceable(segments[k], safeText, raw, hidden) {
        TraceableIsSubstring(segments[k], safeText, raw, hidden);
      }
      return [];
    }
    var traced := TraceAll(segments, safeText, raw, hidden);
    sources := if traced.Some? then traced.value else [];
  }

  /** Python's `in` on strings. */
  predicate IsSubstring(part: string, text: string) {
    exists at: nat :: at <= |text| && OccursAt(part, text, at)
  }
}
