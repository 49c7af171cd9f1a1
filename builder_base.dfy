/** `checklist_builder.py`: the pandas builder whose step ids are the raw
    StepID cells, with no clean-up and no de-duplication. */
module ChecklistBuilderBase {
  import opened Strings
  import opened OrderedDict
  import opened Sheet
  import opened StableSort
  import opened PandasCommon

  /** The stripped StepID cell, or "" when it is not given. */
  function RawId(r: Row, cols: StepColumns): string {
    if Given(r, cols.stepId) then Trim(TextOf(r, cols.stepId)) else ""
  }

  /** The ID block: the raw id, else `step_<order>`. */
  function StepId(r: Row, cols: StepColumns, order: int): string {
    if RawId(r, cols) != "" then RawId(r, cols) else "step_" + IntToString(order)
  }

  /** The REMINDER block's cells, in order. */
  function ReminderFields(cols: StepColumns): seq<(string, Option<nat>)> {
    [("Inputs: ", cols.input), ("Hints: ", cols.hints), ("Phase: ", cols.phase)]
  }

  /** The step object built from one row with data-row index `idx`. */
  function StepOf(cols: StepColumns, r: Row, idx: nat): Step {
    var order := OrderOf(r, cols.order, idx);
    var id := StepId(r, cols, order);
    Step(
      id, order,
      if Given(r, cols.title) then Trim(TextOf(r, cols.title)) else id,
      Command(r, cols),
      Reminder(r, ReminderFields(cols)),
      "")
  }

  function MakeStep(cols: StepColumns): (Row, nat) -> Step {
    (r: Row, idx: nat) => StepOf(cols, r, idx)
  }

  /** The reminder is empty exactly when Inputs, Hints and Phase are all missing. */
  lemma ReminderEmptyIff3(r: Row, cols: StepColumns)
    ensures Reminder(r, ReminderFields(cols)) == "" <==> !Given(r, cols.input) && !Given(r, cols.hints) && !Given(r, cols.phase)
  {
    var fields := ReminderFields(cols);
    assert fields[0].1 == cols.input && fields[1].1 == cols.hints && fields[2].1 == cols.phase;
    assert LabelsStartVisible(fields);
    ReminderEmptyIff(r, fields);
  }

  /** What one row gives: a non-empty id, which names the order when the
      StepID cell is missing or blank; the id as title when there is no
      title cell; a reminder that is empty exactly when Inputs, Hints and
      Phase are all missing; a stripped command; empty notes. */
  lemma StepOfFields(cols: StepColumns, r: Row, idx: nat)
    ensures var s := StepOf(cols, r, idx);
      && s.id != ""
      && s.order == OrderOf(r, cols.order, idx)
      && (RawId(r, cols) == "" ==> |s.id| > 5 && s.id[..5] == "step_" && ParseInt(s.id[5..]) == Some(s.order))
      && (RawId(r, cols) != "" ==> s.id == RawId(r, cols))
      && (!Given(r, cols.title) ==> s.title == s.id)
      && (s.reminder == "" <==> !Given(r, cols.input) && !Given(r, cols.hints) && !Given(r, cols.phase))
      && Trim(s.command) == s.command
      && s.notes == ""
  {
    var order := OrderOf(r, cols.order, idx);
    ReminderEmptyIff3(r, cols);
    CommandShape(r, cols);
    if RawId(r, cols) == "" {
      var id := "step_" + IntToString(order);
      IntToStringRoundTrip(order);
      IntToStringNoSpace(order);
      assert id[5..] == IntToString(order);
    }
  }

  /** `load_steps_from_excel` after the sheet is read: one step per row that
      is not empty, then the stable sort by order. */
  method LoadSteps(f: Frame) returns (steps: seq<Step>)
    ensures steps == SortSteps(StepsFrom(f, |f.rows|, MakeStep(ResolveColumns(f.columns))))
    ensures SortedBy(steps, StepOrder, IntLess)
    ensures multiset(steps) == multiset(StepsFrom(f, |f.rows|, MakeStep(ResolveColumns(f.columns))))
  {
    var cols := ResolveColumns(f.columns);
    var unsorted := CollectSteps(f, MakeStep(cols));
    steps := SortSteps(unsorted);
    SortStepsSorts(unsorted);
  }

  /** Two rows with the same StepID both keep it: ids are not made unique
      (with `cols` the columns `col_lookup` resolved). */
  lemma DuplicateIdsKept(f: Frame, cols: StepColumns, i: nat, j: nat)
    requires i < j < |f.rows| && !BlankRow(f, f.rows[i]) && !BlankRow(f, f.rows[j])
    requires RawId(f.rows[i], cols) == RawId(f.rows[j], cols) != ""
    ensures var mk := MakeStep(cols);
      && mk(f.rows[i], i) in StepsFrom(f, |f.rows|, mk)
      && mk(f.rows[j], j) in StepsFrom(f, |f.rows|, mk)
      && mk(f.rows[i], i).id == mk(f.rows[j], j).id
  {
    StepsFromRows(f, |f.rows|, MakeStep(cols));
  }

  const DefaultAppTitle := "SOP Build Checklist v4c"
  const DefaultRepo := "Kya_Baat_Hai / Chk_Lst"
  const DefaultImgFolder := "SOP/images/SE/Distro/Quo2Ord"

  /** The `excel_meta.get(key, default)` lines, in the order of the returned dict. */
  function MetaDefaults(stem: string, sheet: Dict): seq<(string, string)> {
    var appTitle := GetOr(sheet, "APP_TITLE", DefaultAppTitle);
    [ ("APP_TITLE", DefaultAppTitle), ("APP_TITLE_VISIBLE", appTitle), ("META_REPO", DefaultRepo),
      ("META_ENTITY", ""), ("META_SOP_DEFAULT", ""), ("META_IMG_FOLDER_DEF", DefaultImgFolder),
      ("RUN_LABEL_DEFAULT", stem) ]
  }

  lemma MetaDefaultsDistinct(stem: string, sheet: Dict)
    ensures DistinctKeys(MetaDefaults(stem, sheet))
  {
    var d := MetaDefaults(stem, sheet);
    assert DistinctKeys(d);
  }

  /** `build_default_meta(spec_path, excel_meta)` with `stem` the spec file's stem. */
  function DefaultMeta(stem: string, sheet: Dict): Dict {
    WithFallbacks(sheet, MetaDefaults(stem, sheet))
  }

  /** The result always has exactly the seven placeholder keys, in order. */
  lemma DefaultMetaKeys(stem: string, sheet: Dict)
    ensures Keys(DefaultMeta(stem, sheet)) == ["APP_TITLE", "APP_TITLE_VISIBLE", "META_REPO", "META_ENTITY",
                     "META_SOP_DEFAULT", "META_IMG_FOLDER_DEF", "RUN_LABEL_DEFAULT"]
    ensures DistinctKeys(DefaultMeta(stem, sheet))
  {
    var d := MetaDefaults(stem, sheet);
    MetaDefaultsDistinct(stem, sheet);
    WithFallbacksGet(sheet, d, 0);
  }

  /** A key the Header sheet gives keeps the sheet's value, even an empty
      one; otherwise the documented default, the visible title falling back
      to the title and the run label to the spec stem. */
  lemma DefaultMetaValues(stem: string, sheet: Dict)
    ensures var m := DefaultMeta(stem, sheet);
      && (forall k :: k in Keys(m) && Get(sheet, k).Some? ==> Get(m, k) == Get(sheet, k))
      && (Get(sheet, "APP_TITLE").None? ==> Get(m, "APP_TITLE") == Some(DefaultAppTitle))
      && (Get(sheet, "APP_TITLE_VISIBLE").None? ==> Get(m, "APP_TITLE_VISIBLE") == Get(m, "APP_TITLE"))
      && (Get(sheet, "META_REPO").None? ==> Get(m, "META_REPO") == Some(DefaultRepo))
      && (Get(sheet, "META_ENTITY").None? ==> Get(m, "META_ENTITY") == Some(""))
      && (Get(sheet, "META_SOP_DEFAULT").None? ==> Get(m, "META_SOP_DEFAULT") == Some(""))
      && (Get(sheet, "META_IMG_FOLDER_DEF").None? ==> Get(m, "META_IMG_FOLDER_DEF") == Some(DefaultImgFolder))
      && (Get(sheet, "RUN_LABEL_DEFAULT").None? ==> Get(m, "RUN_LABEL_DEFAULT") == Some(stem))
  {
    var d := MetaDefaults(stem, sheet);
    MetaDefaultsDistinct(stem, sheet);
    WithFallbacksSheetWins(sheet, d);
    WithFallbacksGet(sheet, d, 0);
    DefaultMetaTitleFallbacks(stem, sheet);
    DefaultMetaOtherFallbacks(stem, sheet);
  }

  lemma DefaultMetaTitleFallbacks(stem: string, sheet: Dict)
    ensures var m := DefaultMeta(stem, sheet);
      && (Get(sheet, "APP_TITLE").None? ==> Get(m, "APP_TITLE") == Some(DefaultAppTitle))
      && (Get(sheet, "APP_TITLE_VISIBLE").None? ==> Get(m, "APP_TITLE_VISIBLE") == Get(m, "APP_TITLE"))
  {
    var d := MetaDefaults(stem, sheet);
    MetaDefaultsDistinct(stem, sheet);
    WithFallbacksGet(sheet, d, 0);
    WithFallbacksGet(sheet, d, 1);
  }

  lemma DefaultMetaOtherFallbacks(stem: string, sheet: Dict)
    ensures var m := DefaultMeta(stem, sheet);
      && (Get(sheet, "META_REPO").None? ==> Get(m, "META_REPO") == Some(DefaultRepo))
      && (Get(sheet, "META_ENTITY").None? ==> Get(m, "META_ENTITY") == Some(""))
      && (Get(sheet, "META_SOP_DEFAULT").None? ==> Get(m, "META_SOP_DEFAULT") == Some(""))
      && (Get(sheet, "META_IMG_FOLDER_DEF").None? ==> Get(m, "META_IMG_FOLDER_DEF") == Some(DefaultImgFolder))
      && (Get(sheet, "RUN_LABEL_DEFAULT").None? ==> Get(m, "RUN_LABEL_DEFAULT") == Some(stem))
  {
    var d := MetaDefaults(stem, sheet);
    MetaDefaultsDistinct(stem, sheet);
    WithFallbacksGet(sheet, d, 2);
    WithFallbacksGet(sheet, d, 3);
    WithFallbacksGet(sheet, d, 4);
    WithFallbacksGet(sheet, d, 5);
    WithFallbacksGet(sheet, d, 6);
  }

  /** The whole fill: `{{STEPS_JSON}}` first, then the seven placeholders;
      `stepsJson` stands for `json.dumps` of the steps. */
  method Build(steps: Frame, header: Option<Frame>, stem: string, template: string,
               stepsJson: seq<Step> -> string) returns (html: string)
    ensures html == FillTemplate(template,
      stepsJson(SortSteps(StepsFrom(steps, |steps.rows|, MakeStep(ResolveColumns(steps.columns))))),
      DefaultMeta(stem, Meta(header, false)))
  {
    var loaded := LoadSteps(steps);
    var meta := ReadMeta(header, false);
    html := ApplyTemplate(template, stepsJson(loaded), DefaultMeta(stem, meta));
  }
}
