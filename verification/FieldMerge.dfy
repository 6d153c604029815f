/** Conservative merging of company data into a lead (app/companies/service.py:824-887, 1132-1146, 1176-1195). */
module FieldMerge {
  import opened Common

  type Field = string
  type Texts = map<Field, string>

  datatype Provenance = Provenance(field: Field, value: string, isDefault: bool, modified: bool, confirmed: bool, message: nat)

  /** `provenance` is in the order of its row ids. */
  datatype Lead = Lead(values: Texts, enrichment: Texts, provenance: seq<Provenance>)

  datatype Entry = Entry(field: Field, value: string)

  const NEVER_MERGED: set<Field> := {"线索名称", "录入时间"}

  // ---------- the supplementary lines ----------

  /** Python's `split("\n")`: never empty, and the inverse of joining. */
  function Lines(text: string): (lines: seq<string>)
    ensures |lines| >= 1
  {
    if text == "" then [""]
    else if text[0] == '\n' then [""] + Lines(text[1..])
    else [[text[0]] + Lines(text[1..])[0]] + Lines(text[1..])[1..]
  }

  function Join(lines: seq<string>): string
    requires |lines| >= 1
  {
    if |lines| == 1 then lines[0] else lines[0] + "\n" + Join(lines[1..])
  }

  lemma {:induction false} JoinUndoesLines(text: string)
    ensures Join(Lines(text)) == text
  {
    if text != "" {
      JoinUndoesLines(text[1..]);
      var rest := Lines(text[1..]);
      assert Lines(text)[1..] == if text[0] == '\n' then rest else rest[1..];
    }
  }

  lemma {:induction false} LinesHaveNoNewline(text: string, line: string)
    requires line in Lines(text)
    ensures '\n' !in line
  {
    if text != "" {
      var rest := Lines(text[1..]);
      if line in rest {
        LinesHaveNoNewline(text[1..], line);
      } else if text[0] != '\n' {
        LinesHaveNoNewline(text[1..], rest[0]);
      }
    }
  }

  lemma {:induction false} OneLine(text: string)
    requires '\n' !in text
    ensures Lines(text) == [text]
  {
    if text != "" {
      OneLine(text[1..]);
      assert [text[0]] + text[1..] == text;
    }
  }

  /** One character of `split`, for a text whose rest is already split. */
  lemma LinesStep(text: string, rest: seq<string>)
    requires text != "" && rest == Lines(text[1..])
    ensures Lines(text) == if text[0] == '\n' then [""] + rest else [[text[0]] + rest[0]] + rest[1..]
  {
  }

  lemma {:induction false} LinesOfJoined(first: string, second: string)
    ensures Lines(first + "\n" + second) == Lines(first) + Lines(second)
  {
    var joined := first + "\n" + second;
    if first == "" {
      assert joined[1..] == second;
      LinesStep(joined, Lines(second));
    } else {
      LinesOfJoined(first[1..], second);
      assert joined[1..] == first[1..] + "\n" + second && joined[0] == first[0];
      LinesStep(joined, Lines(first[1..]) + Lines(second));
      LinesStep(first, Lines(first[1..]));
      SplitHead(first[0], Lines(first[1..]), Lines(second));
    }
  }

  /** Putting one more character in front commutes with appending lines. */
  lemma SplitHead(c: char, lines: seq<string>, more: seq<string>)
    requires |lines| >= 1
    ensures ([""] + lines) + more == [""] + (lines + more)
    ensures ([[c] + lines[0]] + lines[1..]) + more == [[c] + (lines + more)[0]] + (lines + more)[1..]
  {
  }

  /** `_append_enrichment` on one field. */
  function Appended(existing: Option<string>, value: string): string {
    if existing.None? then value
    else if value !in Lines(existing.value) then existing.value + "\n" + value
    else existing.value
  }

  /** Nothing said before is lost, and the value is there as text; as a line of its own when it is one line. */
  lemma AppendKeepsEverything(existing: Option<string>, value: string)
    ensures existing.Some? ==> existing.value <= Appended(existing, value)
    ensures existing.Some? ==> Lines(existing.value) <= Lines(Appended(existing, value))
    ensures exists before: string, after: string :: Appended(existing, value) == before + value + after
    ensures '\n' !in value ==> value in Lines(Appended(existing, value))
  {
    if '\n' !in value { OneLine(value); }
    if existing.None? {
      assert Appended(existing, value) == "" + value + "";
    } else if value !in Lines(existing.value) {
      LinesOfJoined(existing.value, value);
      assert Appended(existing, value) == (existing.value + "\n") + value + "";
    } else {
      LineIsText(existing.value, value);
    }
  }

  lemma {:induction false} LineIsText(text: string, line: string)
    requires line in Lines(text)
    ensures exists before: string, after: string :: text == before + line + after
  {
    if text == "" {
      assert text == "" + line + "";
    } else {
      var rest := Lines(text[1..]);
      if line in rest[1..] || (text[0] == '\n' && line in rest) {
        LineIsText(text[1..], line);
        var before: string, after: string :| text[1..] == before + line + after;
        assert text == ([text[0]] + before) + line + after;
      } else if text[0] == '\n' {
        assert text == "" + line + text;
      } else {
        FirstLineIsPrefix(text);
        assert text == "" + line + text[|line|..];
      }
    }
  }

  lemma {:induction false} FirstLineIsPrefix(text: string)
    ensures Lines(text)[0] <= text
  {
    if text != "" {
      FirstLineIsPrefix(text[1..]);
    }
  }

  /** Appending the same value twice is appending it once, exactly for values of one line. */
  lemma AppendIdempotentIff(existing: Option<string>, value: string)
    ensures Appended(Some(Appended(existing, value)), value) == Appended(existing, value) <==> '\n' !in value
  {
    if '\n' in value {
      if value in Lines(Appended(existing, value)) {
        LinesHaveNoNewline(Appended(existing, value), value);
      }
    } else {
      AppendKeepsEverything(existing, value);
    }
  }

  // ---------- what the merge decides for one field ----------

  function Lookup(texts: Texts, field: Field): Option<string> {
    if field in texts then Some(texts[field]) else None
  }

  predicate IsEmptyValue(value: Option<string>) {
    value.None? || value.value == ""
  }

  /** `_user_protected_fields` */
  predicate IsProtected(provenance: seq<Provenance>, field: Field) {
    exists i :: 0 <= i < |provenance| && provenance[i].field == field && (provenance[i].modified || provenance[i].confirmed)
  }

  /** The newest provenance row of a field. */
  function LatestSource(provenance: seq<Provenance>, field: Field): (r: Option<nat>)
    ensures r.Some? ==> r.value < |provenance| && provenance[r.value].field == field
    ensures forall i :: (if r.Some? then r.value < i else 0 <= i) && i < |provenance| ==> provenance[i].field != field
  {
    if provenance == [] then None
    else if provenance[|provenance| - 1].field == field then Some(|provenance| - 1)
    else LatestSource(provenance[..|provenance| - 1], field)
  }

  predicate IsReplaceable(provenance: seq<Provenance>, field: Field) {
    var latest := LatestSource(provenance, field);
    && latest.Some?
    && provenance[latest.value].isDefault && !provenance[latest.value].modified && !provenance[latest.value].confirmed
  }

  predicate IsAccepted(field: Field, value: string) {
    value != "" && field !in NEVER_MERGED
  }

  /** The value goes into the field. */
  predicate IsWritten(lead: Lead, field: Field, value: string) {
    && IsAccepted(field, value) && !IsProtected(lead.provenance, field)
    && (|| (IsReplaceable(lead.provenance, field) && Lookup(lead.values, field) != Some(value))
        || IsEmptyValue(Lookup(lead.values, field)))
  }

  /** The value goes into the supplementary lines. */
  predicate IsDiverted(lead: Lead, field: Field, value: string) {
    && IsAccepted(field, value)
    && (|| IsProtected(lead.provenance, field)
        || (&& !IsReplaceable(lead.provenance, field)
            && !IsEmptyValue(Lookup(lead.values, field)) && Lookup(lead.values, field) != Some(value)))
  }

  function MergedOne(lead: Lead, entry: Entry, message: nat): Lead {
    var Entry(field, value) := entry;
    if IsDiverted(lead, field, value) then
      lead.(enrichment := lead.enrichment[field := Appended(Lookup(lead.enrichment, field), value)])
    else if IsWritten(lead, field, value) then
      lead.(values := lead.values[field := value],
            provenance :=
              if IsReplaceable(lead.provenance, field) then
                var at := LatestSource(lead.provenance, field).value;
                lead.provenance[at := lead.provenance[at].(value := value, isDefault := false)]
              else lead.provenance + [Provenance(field, value, false, false, false, message)])
    else lead
  }

  function Merged(lead: Lead, incoming: seq<Entry>, message: nat): Lead {
    if incoming == [] then lead
    else MergedOne(Merged(lead, incoming[..|incoming| - 1], message), incoming[|incoming| - 1], message)
  }

  /** The incoming fields are the keys of a mapping. */
  predicate DistinctFields(incoming: seq<Entry>) {
    forall i, j :: 0 <= i < j < |incoming| ==> incoming[i].field != incoming[j].field
  }

  // ---------- fields do not affect each other ----------

  /** What the merge reads of one field. */
  ghost predicate SameField(a: Lead, b: Lead, field: Field) {
    && Lookup(a.values, field) == Lookup(b.values, field)
    && Lookup(a.enrichment, field) == Lookup(b.enrichment, field)
    && IsReplaceable(a.provenance, field) == IsReplaceable(b.provenance, field)
    && IsProtected(a.provenance, field) == IsProtected(b.provenance, field)
  }

  lemma LatestAfterAppend(provenance: seq<Provenance>, row: Provenance, field: Field)
    ensures LatestSource(provenance + [row], field) ==
            if row.field == field then Some(|provenance|) else LatestSource(provenance, field)
  {
    assert (provenance + [row])[..|provenance|] == provenance;
  }

  lemma LatestAfterUpdate(provenance: seq<Provenance>, at: nat, row: Provenance, field: Field)
    requires at < |provenance| && row.field == provenance[at].field
    ensures LatestSource(provenance[at := row], field) == LatestSource(provenance, field)
  {
    var a, b := LatestSource(provenance[at := row], field), LatestSource(provenance, field);
    if a.Some? { assert provenance[a.value].field == field; }
    if b.Some? { assert provenance[at := row][b.value].field == field; }
  }

  /** One entry leaves every other field as it was, and its own field as protected as it was. */
  lemma OneEntryOneField(lead: Lead, entry: Entry, message: nat, field: Field)
    ensures IsProtected(MergedOne(lead, entry, message).provenance, field) == IsProtected(lead.provenance, field)
    ensures field != entry.field ==> SameField(MergedOne(lead, entry, message), lead, field)
    ensures field == entry.field ==>
              IsReplaceable(MergedOne(lead, entry, message).provenance, field) ==
              (IsReplaceable(lead.provenance, field) && !IsWritten(lead, field, entry.value))
  {
    var after := MergedOne(lead, entry, message);
    var old_ := lead.provenance;
    if IsWritten(lead, entry.field, entry.value) && !IsDiverted(lead, entry.field, entry.value) {
      if IsReplaceable(old_, entry.field) {
        var at := LatestSource(old_, entry.field).value;
        var row := old_[at].(value := entry.value, isDefault := false);
        assert after.provenance == old_[at := row];
        LatestAfterUpdate(old_, at, row, field);
        assert forall i :: 0 <= i < |old_| ==>
            after.provenance[i].field == old_[i].field && after.provenance[i].modified == old_[i].modified &&
            after.provenance[i].confirmed == old_[i].confirmed;
      } else {
        var row := Provenance(entry.field, entry.value, false, false, false, message);
        assert after.provenance == old_ + [row];
        LatestAfterAppend(old_, row, field);
        assert forall i :: 0 <= i < |old_| ==> after.provenance[i] == old_[i];
      }
    }
  }

  lemma {:induction false} UntouchedFields(lead: Lead, incoming: seq<Entry>, message: nat, field: Field)
    requires forall i :: 0 <= i < |incoming| ==> incoming[i].field != field
    ensures SameField(Merged(lead, incoming, message), lead, field)
  {
    if incoming != [] {
      UntouchedFields(lead, incoming[..|incoming| - 1], message, field);
      OneEntryOneField(
        Merged(lead, incoming[..|incoming| - 1], message), incoming[|incoming| - 1], message, field);
    }
  }

  /** The outcome for a field depends only on the lead before the merge and on the field's own entry. */
  lemma {:induction false} EachFieldOnItsOwn(lead: Lead, incoming: seq<Entry>, message: nat, k: nat)
    requires DistinctFields(incoming) && k < |incoming|
    ensures var Entry(field, value) := incoming[k];
            var after := Merged(lead, incoming, message);
            && Lookup(after.values, field) ==
                 (if IsWritten(lead, field, value) then Some(value) else Lookup(lead.values, field))
            && Lookup(after.enrichment, field) ==
                 (if IsDiverted(lead, field, value) then Some(Appended(Lookup(lead.enrichment, field), value))
                  else Lookup(lead.enrichment, field))
            && IsProtected(after.provenance, field) == IsProtected(lead.provenance, field)
            && IsReplaceable(after.provenance, field) ==
                 (IsReplaceable(lead.provenance, field) && !IsWritten(lead, field, value))
  {
    var front, last := incoming[..|incoming| - 1], incoming[|incoming| - 1];
    var mid := Merged(lead, front, message);
    if k == |front| {
      UntouchedFields(lead, front, message, last.field);
      OneEntryOneField(mid, last, message, last.field);
    } else {
      EachFieldOnItsOwn(lead, front, message, k);
      OneEntryOneField(mid, last, message, front[k].field);
    }
  }

  // ---------- the promises ----------

  /** A field that a person edited or confirmed, and a filled field that is not a pure default, never changes. */
  lemma ProtectedAndFilledFieldsStay(lead: Lead, incoming: seq<Entry>, message: nat, field: Field)
    requires DistinctFields(incoming)
    requires || IsProtected(lead.provenance, field)
             || (!IsEmptyValue(Lookup(lead.values, field)) && !IsReplaceable(lead.provenance, field))
             || field in NEVER_MERGED
    ensures Lookup(Merged(lead, incoming, message).values, field) == Lookup(lead.values, field)
  {
    if k :| 0 <= k < |incoming| && incoming[k].field == field {
      EachFieldOnItsOwn(lead, incoming, message, k);
    } else {
      UntouchedFields(lead, incoming, message, field);
    }
  }

  /** The table patch built beside the merge. */
  function Patch(lead: Lead, incoming: seq<Entry>, message: nat): Texts {
    if incoming == [] then map[]
    else
      var front, last := incoming[..|incoming| - 1], incoming[|incoming| - 1];
      var patch := Patch(lead, front, message);
      if IsWritten(Merged(lead, front, message), last.field, last.value) then patch[last.field := last.value] else patch
  }

  /** The patch holds a field if and only if the merge changed that field, and then its new value. */
  lemma {:induction false} PatchIsTheChange(lead: Lead, incoming: seq<Entry>, message: nat, field: Field)
    requires DistinctFields(incoming)
    ensures field in Patch(lead, incoming, message) <==>
              Lookup(Merged(lead, incoming, message).values, field) != Lookup(lead.values, field)
    ensures field in Patch(lead, incoming, message) ==>
              Lookup(Merged(lead, incoming, message).values, field) == Some(Patch(lead, incoming, message)[field])
  {
    if incoming != [] {
      var front, last := incoming[..|incoming| - 1], incoming[|incoming| - 1];
      PatchIsTheChange(lead, front, message, field);
      OneEntryOneField(Merged(lead, front, message), last, message, field);
      if field == last.field {
        UntouchedFields(lead, front, message, field);
      }
    }
  }

  /** Every accepted value survives: as the field's value, or as text (a line, if it is one line) beside it. */
  lemma AcceptedValuesSurvive(lead: Lead, incoming: seq<Entry>, message: nat, k: nat)
    requires DistinctFields(incoming) && k < |incoming| && IsAccepted(incoming[k].field, incoming[k].value)
    ensures var Entry(field, value) := incoming[k];
            var after := Merged(lead, incoming, message);
            || Lookup(after.values, field) == Some(value)
            || (&& field in after.enrichment
                && (exists before: string, behind: string :: after.enrichment[field] == before + value + behind)
                && ('\n' !in value ==> value in Lines(after.enrichment[field])))
  {
    EachFieldOnItsOwn(lead, incoming, message, k);
    AppendKeepsEverything(Lookup(lead.enrichment, incoming[k].field), incoming[k].value);
  }

  /** What the newest source of a field says. */
  ghost predicate IsSourcedBy(lead: Lead, field: Field, value: string) {
    var latest := LatestSource(lead.provenance, field);
    && latest.Some? && lead.provenance[latest.value].value == value
    && !lead.provenance[latest.value].isDefault
    && !lead.provenance[latest.value].modified && !lead.provenance[latest.value].confirmed
  }

  lemma OneEntryKeepsSources(lead: Lead, entry: Entry, message: nat, field: Field, value: string)
    requires field != entry.field && IsSourcedBy(lead, field, value)
    ensures IsSourcedBy(MergedOne(lead, entry, message), field, value)
  {
    var after := MergedOne(lead, entry, message).provenance;
    var old_ := lead.provenance;
    if after != old_ {
      if IsReplaceable(old_, entry.field) {
        var at := LatestSource(old_, entry.field).value;
        LatestAfterUpdate(old_, at, old_[at].(value := entry.value, isDefault := false), field);
      } else {
        LatestAfterAppend(old_, Provenance(entry.field, entry.value, false, false, false, message), field);
      }
    }
  }

  lemma OneEntryIsSourced(lead: Lead, entry: Entry, message: nat)
    requires IsWritten(lead, entry.field, entry.value)
    ensures IsSourcedBy(MergedOne(lead, entry, message), entry.field, entry.value)
  {
    var old_ := lead.provenance;
    if IsReplaceable(old_, entry.field) {
      var at := LatestSource(old_, entry.field).value;
      LatestAfterUpdate(old_, at, old_[at].(value := entry.value, isDefault := false), entry.field);
    } else {
      LatestAfterAppend(old_, Provenance(entry.field, entry.value, false, false, false, message), entry.field);
    }
  }

  /** A written field has its new value as its newest source, no longer a default and not a person's. */
  lemma {:induction false} WrittenFieldsAreSourced(lead: Lead, incoming: seq<Entry>, message: nat, k: nat)
    requires DistinctFields(incoming) && k < |incoming| && IsWritten(lead, incoming[k].field, incoming[k].value)
    ensures IsSourcedBy(Merged(lead, incoming, message), incoming[k].field, incoming[k].value)
  {
    var front, last := incoming[..|incoming| - 1], incoming[|incoming| - 1];
    if k == |front| {
      UntouchedFields(lead, front, message, last.field);
      OneEntryIsSourced(Merged(lead, front, message), last, message);
    } else {
      WrittenFieldsAreSourced(lead, front, message, k);
      OneEntryKeepsSources(Merged(lead, front, message), last, message, incoming[k].field, incoming[k].value);
    }
  }

  /** Sources are never removed, and only pure defaults are ever rewritten. */
  lemma {:induction false} SourcesAreKept(lead: Lead, incoming: seq<Entry>, message: nat, i: nat)
    requires i < |lead.provenance|
    ensures var after := Merged(lead, incoming, message).provenance; var row := lead.provenance[i];
            && |lead.provenance| <= |after|
            && after[i].(value := row.value, isDefault := row.isDefault) == row
            && (after[i] == row || (row.isDefault && !row.modified && !row.confirmed))
  {
    if incoming != [] {
      SourcesAreKept(lead, incoming[..|incoming| - 1], message, i);
    }
  }

  /** No supplementary line is ever lost. */
  lemma SupplementaryLinesStay(lead: Lead, incoming: seq<Entry>, message: nat, field: Field)
    requires DistinctFields(incoming) && field in lead.enrichment
    ensures field in Merged(lead, incoming, message).enrichment
    ensures Lines(lead.enrichment[field]) <= Lines(Merged(lead, incoming, message).enrichment[field])
  {
    if k :| 0 <= k < |incoming| && incoming[k].field == field {
      EachFieldOnItsOwn(lead, incoming, message, k);
      AppendKeepsEverything(Lookup(lead.enrichment, field), incoming[k].value);
    } else {
      UntouchedFields(lead, incoming, message, field);
    }
  }

  /** Merging the same data again writes no field, and diverts exactly what was diverted before. */
  lemma SecondMergeWritesNothing(lead: Lead, incoming: seq<Entry>, message: nat, k: nat)
    requires DistinctFields(incoming) && k < |incoming|
    ensures var once := Merged(lead, incoming, message);
            && !IsWritten(once, incoming[k].field, incoming[k].value)
            && (IsDiverted(once, incoming[k].field, incoming[k].value) <==>
                IsDiverted(lead, incoming[k].field, incoming[k].value))
  {
    EachFieldOnItsOwn(lead, incoming, message, k);
  }

  lemma SameTexts(a: Texts, b: Texts)
    requires forall field :: Lookup(a, field) == Lookup(b, field)
    ensures a == b
  {
    assert forall field :: field in a ==> Lookup(b, field) == Some(a[field]);
    assert forall field :: field in b ==> Lookup(a, field) == Some(b[field]);
  }

  /** A merge that writes nothing adds and changes no provenance. */
  lemma {:induction false} NothingWrittenKeepsSources(lead: Lead, incoming: seq<Entry>, message: nat)
    requires DistinctFields(incoming)
    requires forall k :: 0 <= k < |incoming| ==> !IsWritten(lead, incoming[k].field, incoming[k].value)
    ensures Merged(lead, incoming, message).provenance == lead.provenance
  {
    if incoming != [] {
      var front, last := incoming[..|incoming| - 1], incoming[|incoming| - 1];
      NothingWrittenKeepsSources(lead, front, message);
      UntouchedFields(lead, front, message, last.field);
      assert !IsWritten(lead, last.field, last.value);
    }
  }

  /**
    Merging the same data a second time changes nothing at all if and only if every value that is diverted has no
    newline. A diverted value of several lines is appended again by each merge.
  */
  lemma MergeIdempotentIff(lead: Lead, incoming: seq<Entry>, message: nat, later: nat)
    requires DistinctFields(incoming)
    ensures var once := Merged(lead, incoming, message);
            (Merged(once, incoming, later) == once) <==>
              (forall k :: 0 <= k < |incoming| && IsDiverted(lead, incoming[k].field, incoming[k].value) ==>
                 '\n' !in incoming[k].value)
    ensures var once := Merged(lead, incoming, message);
            Merged(once, incoming, later).values == once.values &&
            Merged(once, incoming, later).provenance == once.provenance
  {
    var once := Merged(lead, incoming, message);
    var twice := Merged(once, incoming, later);
    forall k | 0 <= k < |incoming|
      ensures !IsWritten(once, incoming[k].field, incoming[k].value)
      ensures Lookup(twice.values, incoming[k].field) == Lookup(once.values, incoming[k].field)
      ensures Lookup(twice.enrichment, incoming[k].field) == Lookup(once.enrichment, incoming[k].field) <==>
                !IsDiverted(lead, incoming[k].field, incoming[k].value) || '\n' !in incoming[k].value
    {
      SecondMergeWritesNothing(lead, incoming, message, k);
      EachFieldOnItsOwn(lead, incoming, message, k);
      EachFieldOnItsOwn(once, incoming, later, k);
      AppendIdempotentIff(Lookup(lead.enrichment, incoming[k].field), incoming[k].value);
    }
    NothingWrittenKeepsSources(once, incoming, later);
    forall field
      ensures Lookup(twice.values, field) == Lookup(once.values, field)
      ensures (forall k :: 0 <= k < |incoming| ==> incoming[k].field != field) ==>
                Lookup(twice.enrichment, field) == Lookup(once.enrichment, field)
    {
      if forall k :: 0 <= k < |incoming| ==> incoming[k].field != field {
        UntouchedFields(once, incoming, later, field);
      }
    }
    SameTexts(twice.values, once.values);
    if forall k :: 0 <= k < |incoming| && IsDiverted(lead, incoming[k].field, incoming[k].value) ==>
         '\n' !in incoming[k].value {
      SameTexts(twice.enrichment, once.enrichment);
    }
  }

  /** The order in which a mapping yields its entries does not matter for values and supplementary lines. */
  lemma OrderDoesNotMatter(lead: Lead, incoming: seq<Entry>, permuted: seq<Entry>, message: nat)
    requires DistinctFields(incoming) && DistinctFields(permuted)
    requires forall entry :: entry in incoming <==> entry in permuted
    ensures Merged(lead, incoming, message).values == Merged(lead, permuted, message).values
    ensures Merged(lead, incoming, message).enrichment == Merged(lead, permuted, message).enrichment
  {
    var a, b := Merged(lead, incoming, message), Merged(lead, permuted, message);
    forall field
      ensures Lookup(a.values, field) == Lookup(b.values, field)
      ensures Lookup(a.enrichment, field) == Lookup(b.enrichment, field)
    {
      if k :| 0 <= k < |incoming| && incoming[k].field == field {
        assert incoming[k] in permuted;
        var j :| 0 <= j < |permuted| && permuted[j] == incoming[k];
        EachFieldOnItsOwn(lead, incoming, message, k);
        EachFieldOnItsOwn(lead, permuted, message, j);
      } else {
        assert forall j :: 0 <= j < |permuted| ==> permuted[j] in incoming;
        UntouchedFields(lead, incoming, message, field);
        UntouchedFields(lead, permuted, message, field);
      }
    }
    SameTexts(a.values, b.values);
    SameTexts(a.enrichment, b.enrichment);
  }

  /** The lead row and its provenance rows. */
  class LeadRecord {
    var fieldValues: Texts
    var enrichmentValues: Texts
    var provenance: seq<Provenance>

    ghost function Contents(): Lead
      reads this
    {
      Lead(fieldValues, enrichmentValues, provenance)
    }

    constructor (lead: Lead)
      ensures Contents() == lead
    {
      fieldValues, enrichmentValues, provenance := lead.values, lead.enrichment, lead.provenance;
    }

    /** `_merge_patch`: fills empty fields, replaces pure defaults, and keeps everything else as supplementary text. */
    method MergePatch(incoming: seq<Entry>, message: nat) returns (patch: Texts)
      requires DistinctFields(incoming)
      modifies this
      ensures Contents() == Merged(old(Contents()), incoming, message)
      ensures patch == Patch(old(Contents()), incoming, message)
    {
      patch := map[];
      var values, enrichment := fieldValues, enrichmentValues;
      ghost var before := Contents();
      var protectedBy := provenance;
      for k := 0 to |incoming|
        invariant Lead(values, enrichment, provenance) == Merged(before, incoming[..k], message)
        invariant patch == Patch(before, incoming[..k], message)
        invariant forall field :: IsProtected(provenance, field) == IsProtected(protectedBy, field)
      {
        assert incoming[..k + 1][..k] == incoming[..k];
        ghost var mid := Lead(values, enrichment, provenance);
        var Entry(field, value) := incoming[k];
        forall f ensures IsProtected(MergedOne(mid, incoming[k], message).provenance, f) == IsProtected(provenance, f) {
          OneEntryOneField(mid, incoming[k], message, f);
        }
        if value == "" || field in NEVER_MERGED {
          continue;
        }
        var oldValue := Lookup(values, field);
        if IsProtected(protectedBy, field) {
          enrichment := AppendEnrichment(enrichment, field, value);
          continue;
        }
        var source := LatestSource(provenance, field);
        var replaceDefault :=
          source.Some? && provenance[source.value].isDefault &&
          !provenance[source.value].modified && !provenance[source.value].confirmed;
        if replaceDefault && oldValue != Some(value) {
          values := values[field := value];
          patch := patch[field := value];
          var at := source.value;
          provenance := provenance[at := provenance[at].(value := value, isDefault := false)];
        } else if IsEmptyValue(oldValue) {
          values := values[field := value];
          patch := patch[field := value];
          provenance := provenance + [Provenance(field, value, false, false, false, message)];
        } else if oldValue != Some(value) {
          enrichment := AppendEnrichment(enrichment, field, value);
        }
      }
      assert incoming[..|incoming|] == incoming;
      fieldValues := values;
      enrichmentValues := enrichment;
    }
  }

  /** `_append_enrichment` */
  function AppendEnrichment(enrichment: Texts, field: Field, value: string): Texts {
    enrichment[field := Appended(Lookup(enrichment, field), value)]
  }

  // ---------- the three things that can happen to an accepted value, on the raw rows ----------

  /** The newest row of a field. */
  predicate IsNewestRow(provenance: seq<Provenance>, field: Field, i: nat) {
    && i < |provenance| && provenance[i].field == field
    && forall j :: i < j < |provenance| ==> provenance[j].field != field
  }

  lemma NewestRowIsLatest(provenance: seq<Provenance>, field: Field, i: nat)
    requires IsNewestRow(provenance, field, i)
    ensures LatestSource(provenance, field) == Some(i)
  {
  }

  /** A person's edit or confirmation of any age protects the field. */
  predicate IsPersonal(row: Provenance) {
    row.modified || row.confirmed
  }

  /** A pure default, one that no person touched, is replaced by the first other value that comes in. */
  lemma DefaultsAreReplaced(lead: Lead, incoming: seq<Entry>, message: nat, k: nat, i: nat)
    requires DistinctFields(incoming) && k < |incoming| && IsNewestRow(lead.provenance, incoming[k].field, i)
    requires lead.provenance[i].isDefault
    requires forall j :: 0 <= j < |lead.provenance| && lead.provenance[j].field == incoming[k].field ==>
               !IsPersonal(lead.provenance[j])
    requires incoming[k].value != "" && incoming[k].field !in {"线索名称", "录入时间"}
    ensures Lookup(Merged(lead, incoming, message).values, incoming[k].field) == Some(incoming[k].value)
    ensures Lookup(Merged(lead, incoming, message).enrichment, incoming[k].field) ==
              Lookup(lead.enrichment, incoming[k].field)
  {
    NewestRowIsLatest(lead.provenance, incoming[k].field, i);
    EachFieldOnItsOwn(lead, incoming, message, k);
  }

  /** An empty field that no person touched is filled. */
  lemma EmptyFieldsAreFilled(lead: Lead, incoming: seq<Entry>, message: nat, k: nat)
    requires DistinctFields(incoming) && k < |incoming|
    requires Lookup(lead.values, incoming[k].field) in {None, Some("")}
    requires forall j :: 0 <= j < |lead.provenance| && lead.provenance[j].field == incoming[k].field ==>
               !IsPersonal(lead.provenance[j])
    requires incoming[k].value != "" && incoming[k].field !in {"线索名称", "录入时间"}
    ensures Lookup(Merged(lead, incoming, message).values, incoming[k].field) == Some(incoming[k].value)
    ensures Lookup(Merged(lead, incoming, message).enrichment, incoming[k].field) ==
              Lookup(lead.enrichment, incoming[k].field)
  {
    EachFieldOnItsOwn(lead, incoming, message, k);
  }

  /** A value for a field that a person touched becomes a supplementary line, even if the field has that value. */
  lemma PersonalFieldsGetLines(lead: Lead, incoming: seq<Entry>, message: nat, k: nat, j: nat)
    requires DistinctFields(incoming) && k < |incoming|
    requires j < |lead.provenance| && lead.provenance[j].field == incoming[k].field && IsPersonal(lead.provenance[j])
    requires incoming[k].value != "" && incoming[k].field !in {"线索名称", "录入时间"}
    ensures var after := Merged(lead, incoming, message);
            && Lookup(after.values, incoming[k].field) == Lookup(lead.values, incoming[k].field)
            && incoming[k].field in after.enrichment
            && ('\n' !in incoming[k].value ==> incoming[k].value in Lines(after.enrichment[incoming[k].field]))
  {
    EachFieldOnItsOwn(lead, incoming, message, k);
    AppendKeepsEverything(Lookup(lead.enrichment, incoming[k].field), incoming[k].value);
  }

  /** Empty values and the two excluded fields change nothing. */
  lemma RejectedValuesDoNothing(lead: Lead, incoming: seq<Entry>, message: nat, k: nat)
    requires DistinctFields(incoming) && k < |incoming|
    requires incoming[k].value == "" || incoming[k].field in {"线索名称", "录入时间"}
    ensures var after := Merged(lead, incoming, message);
            && Lookup(after.values, incoming[k].field) == Lookup(lead.values, incoming[k].field)
            && Lookup(after.enrichment, incoming[k].field) == Lookup(lead.enrichment, incoming[k].field)
  {
    EachFieldOnItsOwn(lead, incoming, message, k);
  }

  /** Every source row that a merge adds names the message it came from. */
  lemma {:induction false} NewSourcesNameTheMessage(lead: Lead, incoming: seq<Entry>, message: nat, i: nat)
    requires |lead.provenance| <= i < |Merged(lead, incoming, message).provenance|
    ensures Merged(lead, incoming, message).provenance[i].message == message
  {
    if incoming != [] {
      var front := incoming[..|incoming| - 1];
      if i < |Merged(lead, front, message).provenance| {
        NewSourcesNameTheMessage(lead, front, message, i);
      }
    }
  }
}
