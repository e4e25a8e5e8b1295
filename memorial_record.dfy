/** Steps 3 to 10 of the scraper put together: the `main_fields` dict is
    built by step 4, completed in place by steps 5 to 7, and projected onto
    the output columns by step 10. */
module Assembly {
  import opened Wrappers
  import opened Records
  import opened Columns
  import opened ScriptExtraction
  import opened FieldNormalizer
  import opened MarkupSections

  /** The `main_fields` dict, updated in place key by key. */
  class MemorialRecord {
    var columns: seq<Column>
    var cells: map<Column, Value>

    function View(): Row<Column>
      reads this
    {
      Row(columns, cells)
    }

    ghost predicate Valid()
      reads this
    {
      WellFormed(View())
    }

    /** Binding the dict built by the literal of step 4. */
    constructor (fields: Row<Column>)
      requires WellFormed(fields)
      ensures Valid() && View() == fields
    {
      columns := fields.columns;
      cells := fields.cells;
    }

    /** `main_fields[key] = v`. */
    method Set(key: Column, v: Value)
      requires Valid()
      modifies this
      ensures Valid()
      ensures View() == Put(old(View()), key, v)
    {
      if key !in cells {
        columns := columns + [key];
      }
      cells := cells[key := v];
    }
  }

  // ---------------------------------------------------------------------
  // The steps as functions on the record

  /** Step 5: `biography`, then `bio_by`. */
  function BiographyStep(r: Row<Column>, page: Page): (r': Row<Column>)
    requires WellFormed(r)
    ensures WellFormed(r')
  {
    Put(Put(r, Biography, Str(BiographyText(page))), BioBy, Str(BioByText(page)))
  }

  /** Step 5.1: `Plot`. */
  function PlotStep(r: Row<Column>, page: Page): (r': Row<Column>)
    requires WellFormed(r)
    ensures WellFormed(r')
  {
    Put(r, Plot, Str(PlotText(page)))
  }

  /** Step 6: `inscription`. */
  function InscriptionStep(r: Row<Column>, page: Page): (r': Row<Column>)
    requires WellFormed(r)
    ensures WellFormed(r')
  {
    Put(r, Inscription, Str(InscriptionText(page)))
  }

  /** Step 7: `main_fields.update` with the three joined categories, in the
      order of its dict literal. */
  function FamilyStep(r: Row<Column>, family: Option<map<string, seq<string>>>): (r': Row<Column>)
    requires WellFormed(r)
    ensures WellFormed(r')
  {
    var r1 := Put(r, FamilyParents, Str(Join(RelationLinks(family, "parents"), ", ")));
    var r2 := Put(r1, FamilySpouses, Str(Join(RelationLinks(family, "spouses"), ", ")));
    Put(r2, FamilyChildren, Str(Join(RelationLinks(family, "children"), ", ")))
  }

  /** `main_fields` after steps 5 to 7. */
  function Assembled(fields: Row<Column>, page: Page): (r: Row<Column>)
    requires WellFormed(fields)
    ensures WellFormed(r)
  {
    FamilyStep(InscriptionStep(PlotStep(BiographyStep(fields, page), page), page), page.family)
  }

  // ---------------------------------------------------------------------
  // The steps as updates of the record

  method ExtractBiography(record: MemorialRecord, page: Page)
    requires record.Valid()
    modifies record
    ensures record.Valid()
    ensures record.View() == BiographyStep(old(record.View()), page)
  {
    record.Set(Biography, Str(BiographyText(page)));
    record.Set(BioBy, Str(BioByText(page)));
  }

  method ExtractPlot(record: MemorialRecord, page: Page)
    requires record.Valid()
    modifies record
    ensures record.Valid()
    ensures record.View() == PlotStep(old(record.View()), page)
  {
    record.Set(Plot, Str(PlotText(page)));
  }

  method ExtractInscription(record: MemorialRecord, page: Page)
    requires record.Valid()
    modifies record
    ensures record.Valid()
    ensures record.View() == InscriptionStep(old(record.View()), page)
  {
    record.Set(Inscription, Str(InscriptionText(page)));
  }

  method ExtractFamily(record: MemorialRecord, page: Page)
    requires record.Valid()
    modifies record
    ensures record.Valid()
    ensures record.View() == FamilyStep(old(record.View()), page.family)
  {
    var links := CollectFamily(page.family);
    record.Set(FamilyParents, Str(Join(links["parents"], ", ")));
    record.Set(FamilySpouses, Str(Join(links["spouses"], ", ")));
    record.Set(FamilyChildren, Str(Join(links["children"], ", ")));
  }

  // ---------------------------------------------------------------------
  // The whole run

  /** The keys steps 5 to 7 add that reach the output, in order. */
  const KeptStepKeys: seq<Column> := [Biography, BioBy, Plot]

  /** `columns_to_drop`, in its order; they are also the last keys step 6 and
      step 7 add. */
  const InternalKeys: seq<Column> := [Inscription, FamilyParents, FamilySpouses, FamilyChildren]

  /** The keys steps 5 to 7 add, in the order they add them. */
  const StepKeys: seq<Column> := KeptStepKeys + InternalKeys

  const DroppedColumns: set<Column> := set k | k in InternalKeys

  datatype ScrapeError =
    | JsParsingFailed(cause: JsError)  // step 3 ends with `JS parsing failed`
    | MainFieldsFailed                 // step 4 leaves `main_fields` unbound

  /** Steps 4 to 10 once the evaluator has answered. */
  function FromPayload(page: Page, data: Option<Payload>, clean: string -> Option<string>): Result<Row<Column>, ScrapeError> {
    match data
    case None => Failure(JsParsingFailed(EvalFailed))
    case Some(payload) =>
      match NormalizeFields(payload, clean)
      case None => Failure(MainFieldsFailed)
      case Some(fields) => Success(Drop(Assembled(fields, page), DroppedColumns))
  }

  /** The one-row table the script writes, or why it stops. The evaluator
      and the name cleaning are given functions. */
  function ScrapeResult(page: Page, evalJs: string -> Option<Payload>, clean: string -> Option<string>): Result<Row<Column>, ScrapeError> {
    match JsCode(page.scripts)
    case Failure(e) => Failure(JsParsingFailed(e))
    case Success(code) => FromPayload(page, evalJs(code), clean)
  }

  /** The script from step 3 on, with `main_fields` as a record updated in
      place. */
  method Scrape(page: Page, evalJs: string -> Option<Payload>, clean: string -> Option<string>)
      returns (result: Result<Row<Column>, ScrapeError>)
    ensures result == ScrapeResult(page, evalJs, clean)
  {
    var code := JsCode(page.scripts);
    if code.Failure? {
      return Failure(JsParsingFailed(code.error));
    }
    var data := evalJs(code.value);
    if data.None? {
      return Failure(JsParsingFailed(EvalFailed));
    }
    var fields := NormalizeFields(data.value, clean);
    if fields.None? {
      return Failure(MainFieldsFailed);
    }
    var record := new MemorialRecord(fields.value);
    ExtractBiography(record, page);
    ExtractPlot(record, page);
    ExtractInscription(record, page);
    ExtractFamily(record, page);
    var mainDf := Drop(record.View(), DroppedColumns);
    return Success(mainDf);
  }

  // ---------------------------------------------------------------------
  // Error outcomes

  /** "Missing" is reported exactly when no script declares the variable. */
  lemma MissingReported(page: Page, evalJs: string -> Option<Payload>, clean: string -> Option<string>)
    ensures ScrapeResult(page, evalJs, clean) == Failure(JsParsingFailed(Missing)) <==>
              forall j :: 0 <= j < |page.scripts| ==> !ScriptDeclares(page.scripts[j])
  {
    MissingIffNoScriptDeclares(page.scripts);
  }

  /** "Failed to extract" is reported exactly when the pattern matches
      nowhere in the script `soup.find` returns. */
  lemma NotExtractedReported(page: Page, evalJs: string -> Option<Payload>, clean: string -> Option<string>, i: nat)
    requires FirstDeclaring(page.scripts, i)
    ensures ScrapeResult(page, evalJs, clean) == Failure(JsParsingFailed(NotExtracted)) <==>
              forall p: nat :: !MatchesAt(page.scripts[i].value, p)
  {
    NotExtractedIffNoMatch(page.scripts, i);
  }

  /** With the literal found, the evaluator gets exactly its snippet, and
      what it answers decides the rest. */
  lemma ScrapeEvaluatesSnippet(page: Page, evalJs: string -> Option<Payload>, clean: string -> Option<string>,
                               i: nat, p: nat, b: nat, e: nat)
    requires FirstDeclaring(page.scripts, i)
    requires SearchResult(page.scripts[i].value, p, b, e)
    ensures ScrapeResult(page, evalJs, clean)
              == FromPayload(page, evalJs(EvalSnippet(page.scripts[i].value[b..e + 1])), clean)
  {
    SnippetWrapsSearchedLiteral(page.scripts, i, p, b, e);
  }

  /** A rejected snippet is reported as a JS parsing failure; step 4 fails
      exactly when the payload's `fullName` is not a string or its
      markup is rejected. */
  lemma PayloadOutcomes(page: Page, data: Option<Payload>, clean: string -> Option<string>)
    ensures FromPayload(page, data, clean) == Failure(JsParsingFailed(EvalFailed)) <==> data.None?
    ensures FromPayload(page, data, clean) == Failure(MainFieldsFailed) <==>
              && data.Some?
              && (!Field(data.value, "fullName").Str? || clean(Field(data.value, "fullName").text).None?)
  {
    if data.Some? {
      NormalizeFieldsOutcome(data.value, clean);
    }
  }

  // ---------------------------------------------------------------------
  // The record and the output

  lemma BiographyStepForm(r: Row<Column>, page: Page)
    requires WellFormed(r)
    requires Biography !in r.cells && BioBy !in r.cells
    ensures BiographyStep(r, page) ==
              Row(r.columns + [Biography] + [BioBy],
                  r.cells[Biography := Str(BiographyText(page))][BioBy := Str(BioByText(page))])
  {
    PutFresh(r, Biography, Str(BiographyText(page)));
    PutFresh(Put(r, Biography, Str(BiographyText(page))), BioBy, Str(BioByText(page)));
  }

  lemma FamilyStepForm(r: Row<Column>, family: Option<map<string, seq<string>>>)
    requires WellFormed(r)
    requires FamilyParents !in r.cells && FamilySpouses !in r.cells && FamilyChildren !in r.cells
    ensures FamilyStep(r, family) ==
              Row(r.columns + [FamilyParents] + [FamilySpouses] + [FamilyChildren],
                  r.cells[FamilyParents := Str(Join(RelationLinks(family, "parents"), ", "))]
                         [FamilySpouses := Str(Join(RelationLinks(family, "spouses"), ", "))]
                         [FamilyChildren := Str(Join(RelationLinks(family, "children"), ", "))])
  {
    var r1 := Put(r, FamilyParents, Str(Join(RelationLinks(family, "parents"), ", ")));
    PutFresh(r, FamilyParents, Str(Join(RelationLinks(family, "parents"), ", ")));
    PutFresh(r1, FamilySpouses, Str(Join(RelationLinks(family, "spouses"), ", ")));
    var r2 := Put(r1, FamilySpouses, Str(Join(RelationLinks(family, "spouses"), ", ")));
    PutFresh(r2, FamilyChildren, Str(Join(RelationLinks(family, "children"), ", ")));
  }

  /** Steps 5 to 7 on a record without their keys. */
  lemma AssembledForm(fields: Row<Column>, page: Page)
    requires WellFormed(fields)
    requires Biography !in fields.cells && BioBy !in fields.cells && Plot !in fields.cells
    requires Inscription !in fields.cells && FamilyParents !in fields.cells
    requires FamilySpouses !in fields.cells && FamilyChildren !in fields.cells
    ensures Assembled(fields, page) ==
              Row(fields.columns + [Biography] + [BioBy] + [Plot] + [Inscription]
                    + [FamilyParents] + [FamilySpouses] + [FamilyChildren],
                  fields.cells[Biography := Str(BiographyText(page))][BioBy := Str(BioByText(page))]
                              [Plot := Str(PlotText(page))][Inscription := Str(InscriptionText(page))]
                              [FamilyParents := Str(Join(RelationLinks(page.family, "parents"), ", "))]
                              [FamilySpouses := Str(Join(RelationLinks(page.family, "spouses"), ", "))]
                              [FamilyChildren := Str(Join(RelationLinks(page.family, "children"), ", "))])
  {
    BiographyStepForm(fields, page);
    var r2 := BiographyStep(fields, page);
    PutFresh(r2, Plot, Str(PlotText(page)));
    var r3 := PlotStep(r2, page);
    PutFresh(r3, Inscription, Str(InscriptionText(page)));
    FamilyStepForm(InscriptionStep(r3, page), page.family);
  }

  lemma AppendSingles<K>(x: seq<K>, a: K, b: K, c: K, d: K, e: K, f: K, g: K)
    ensures x + [a] + [b] + [c] + [d] + [e] + [f] + [g] == x + ([a, b, c] + [d, e, f, g])
  {
  }

  /** Steps 5 to 7 on a record without their keys append those keys, in
      order, after the record's own. */
  lemma AssembledColumns(fields: Row<Column>, page: Page)
    requires WellFormed(fields)
    requires forall k :: k in StepKeys ==> k !in fields.cells
    ensures Assembled(fields, page).columns == fields.columns + StepKeys
  {
    AssembledForm(fields, page);
    AppendSingles(fields.columns, Biography, BioBy, Plot, Inscription, FamilyParents, FamilySpouses, FamilyChildren);
  }

  /** What steps 5 and 6 store: the four markup texts, whose defaults
      MarkupDefaults gives. */
  lemma AssembledMarkupCells(fields: Row<Column>, page: Page)
    requires WellFormed(fields)
    requires forall k :: k in StepKeys ==> k !in fields.cells
    ensures Assembled(fields, page).cells[Biography] == Str(BiographyText(page))
    ensures Assembled(fields, page).cells[BioBy] == Str(BioByText(page))
    ensures Assembled(fields, page).cells[Plot] == Str(PlotText(page))
    ensures Assembled(fields, page).cells[Inscription] == Str(InscriptionText(page))
  {
    AssembledForm(fields, page);
  }

  /** What step 7 stores: each category's link texts joined with ", " in
      document order, "" for a category without links. */
  lemma AssembledFamilyCells(fields: Row<Column>, page: Page)
    requires WellFormed(fields)
    requires forall k :: k in StepKeys ==> k !in fields.cells
    ensures Assembled(fields, page).cells[FamilyParents] == Str(Join(RelationLinks(page.family, "parents"), ", "))
    ensures Assembled(fields, page).cells[FamilySpouses] == Str(Join(RelationLinks(page.family, "spouses"), ", "))
    ensures Assembled(fields, page).cells[FamilyChildren] == Str(Join(RelationLinks(page.family, "children"), ", "))
  {
    AssembledForm(fields, page);
  }

  /** Steps 5 to 7 leave every key of step 4 as it was. */
  lemma AssembledKeeps(fields: Row<Column>, page: Page)
    requires WellFormed(fields)
    requires forall k :: k in StepKeys ==> k !in fields.cells
    ensures forall k :: k in fields.cells ==> Assembled(fields, page).cells[k] == fields.cells[k]
  {
    AssembledForm(fields, page);
  }

  /** None of the keys steps 5 to 7 add is a key of the table. */
  lemma StepKeysFresh()
    ensures forall k :: k in StepKeys ==> k !in MainKeys
  {
  }

  lemma MainKeysKept()
    ensures forall k :: k in MainKeys ==> k !in DroppedColumns
  {
  }

  /** The drop removes exactly the internal keys among those steps 5 to 7 add. */
  lemma StepKeysProjected()
    ensures Without(StepKeys, DroppedColumns) == KeptStepKeys
  {
    WithoutAppend(KeptStepKeys, InternalKeys, DroppedColumns);
    WithoutAbsent(KeptStepKeys, DroppedColumns);
    WithoutAll(InternalKeys, DroppedColumns);
  }

  /** With a string `fullName`, the run gets through step 4 and writes the
      projection of the assembled record. */
  lemma FromPayloadSucceeds(page: Page, payload: Payload, clean: string -> Option<string>, raw: string, name: string)
    requires Field(payload, "fullName") == Str(raw) && clean(raw) == Some(name)
    ensures FromPayload(page, Some(payload), clean)
              == Success(Drop(Assembled(MainFields(payload, name), page), DroppedColumns))
  {
    assert NormalizeFields(payload, clean) == Some(MainFields(payload, name));
  }

  /** The record of step 4 has none of the keys the later steps add. */
  lemma MainFieldsLackStepKeys(payload: Payload, cleanedName: string)
    ensures forall k :: k in StepKeys ==> k !in MainFields(payload, cleanedName).cells
  {
    MainFieldsTable(payload, cleanedName);
    StepKeysFresh();
  }

  /** The output columns: the 27 table keys, then `biography`, `bio_by` and
      `Plot`; none of the dropped keys is left. */
  lemma OutputColumns(page: Page, payload: Payload, clean: string -> Option<string>, raw: string, name: string)
    requires Field(payload, "fullName") == Str(raw) && clean(raw) == Some(name)
    ensures FromPayload(page, Some(payload), clean).Success?
    ensures var out := FromPayload(page, Some(payload), clean).value;
            && WellFormed(out)
            && out.columns == MainKeys + KeptStepKeys
            && forall k :: k in DroppedColumns ==> k !in out.cells
  {
    FromPayloadSucceeds(page, payload, clean, raw, name);
    var fields := MainFields(payload, name);
    MainFieldsTable(payload, name);
    MainFieldsLackStepKeys(payload, name);
    AssembledColumns(fields, page);
    WithoutAppend(MainKeys, StepKeys, DroppedColumns);
    MainKeysKept();
    WithoutAbsent(MainKeys, DroppedColumns);
    StepKeysProjected();
  }

  lemma KeptNotDropped()
    ensures FullName !in DroppedColumns && Biography !in DroppedColumns
    ensures BioBy !in DroppedColumns && Plot !in DroppedColumns
  {
  }

  /** The output's `full_name` is the cleaned name. */
  lemma OutputFullName(page: Page, payload: Payload, clean: string -> Option<string>, raw: string, name: string)
    requires Field(payload, "fullName") == Str(raw) && clean(raw) == Some(name)
    ensures FromPayload(page, Some(payload), clean).Success?
    ensures var out := FromPayload(page, Some(payload), clean).value;
            FullName in out.cells && out.cells[FullName] == Str(name)
  {
    FromPayloadSucceeds(page, payload, clean, raw, name);
    var fields := MainFields(payload, name);
    MainFieldsTable(payload, name);
    MainFieldsLackStepKeys(payload, name);
    AssembledKeeps(fields, page);
    KeptNotDropped();
  }

  /** The output's `biography`, `bio_by` and `Plot` are the texts steps 5
      and 5.1 found, with their defaults. */
  lemma OutputMarkupCells(page: Page, payload: Payload, clean: string -> Option<string>, raw: string, name: string)
    requires Field(payload, "fullName") == Str(raw) && clean(raw) == Some(name)
    ensures FromPayload(page, Some(payload), clean).Success?
    ensures var out := FromPayload(page, Some(payload), clean).value;
            && Biography in out.cells && out.cells[Biography] == Str(BiographyText(page))
            && BioBy in out.cells && out.cells[BioBy] == Str(BioByText(page))
            && Plot in out.cells && out.cells[Plot] == Str(PlotText(page))
  {
    FromPayloadSucceeds(page, payload, clean, raw, name);
    var fields := MainFields(payload, name);
    MainFieldsLackStepKeys(payload, name);
    AssembledMarkupCells(fields, page);
    KeptNotDropped();
  }

  /** Every other table key holds its payload field, unchanged. */
  lemma OutputCopiedCells(page: Page, payload: Payload, clean: string -> Option<string>, raw: string, name: string)
    requires Field(payload, "fullName") == Str(raw) && clean(raw) == Some(name)
    ensures FromPayload(page, Some(payload), clean).Success?
    ensures |MainKeys| == |PayloadFields|
    ensures var out := FromPayload(page, Some(payload), clean).value;
            forall i :: 1 <= i < |MainKeys| ==>
              MainKeys[i] in out.cells && out.cells[MainKeys[i]] == Field(payload, PayloadFields[i])
  {
    FromPayloadSucceeds(page, payload, clean, raw, name);
    var fields := MainFields(payload, name);
    MainFieldsTable(payload, name);
    MainFieldsLackStepKeys(payload, name);
    AssembledKeeps(fields, page);
    MainKeysKept();
  }
}
