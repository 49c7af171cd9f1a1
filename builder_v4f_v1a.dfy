/** `checklist_builder_v4f_v1a.py`: the pandas builder that also fills
    templates without placeholders, by rewriting the `let steps = [...]`
    block, the `<title>` element and the `headerTitle` div in place. */
module ChecklistBuilderV4fV1a {
  import opened Strings
  import opened OrderedDict
  import opened Sheet
  import opened StableSort
  import opened PandasCommon
  import opened Patterns
  import opened RegexTemplate
  import Base = ChecklistBuilderBase

  // ---------------------------------------------------------------------
  // load_steps_from_excel
  // ---------------------------------------------------------------------

  /** The command cell with trailing spaces removed, then `[Program] ...`
      and `[Variants] ...` with their cells stripped, each only when its
      cell is given. */
  function StrippedCommandParts(r: Row, cols: StepColumns): seq<string> {
    (if Given(r, cols.command) then [TrimEnd(TextOf(r, cols.command))] else [])
    + (if Given(r, cols.program) then ["[Program] " + Trim(TextOf(r, cols.program))] else [])
    + (if Given(r, cols.variants) then ["[Variants] " + Trim(TextOf(r, cols.variants))] else [])
  }

  /** `"\n\n".join([p for p in cmd_parts if p.strip()]).strip()`. */
  function StrippedCommand(r: Row, cols: StepColumns): string {
    Trim(Join(NonBlank(StrippedCommandParts(r, cols)), "\n\n"))
  }

  /** The step object of one row: the id, title and reminder of
      `checklist_builder.py`, with this builder's command. */
  function StepOf(cols: StepColumns, r: Row, idx: nat): Step {
    Base.StepOf(cols, r, idx).(command := StrippedCommand(r, cols))
  }

  function MakeStep(cols: StepColumns): (Row, nat) -> Step {
    (r: Row, idx: nat) => StepOf(cols, r, idx)
  }

  /** The command is stripped, names the program and the variants whenever
      their cells are given, and is empty exactly when none of its three
      cells holds anything but spaces. */
  lemma StrippedCommandShape(r: Row, cols: StepColumns)
    ensures var c := StrippedCommand(r, cols);
      && Trim(c) == c
      && (Given(r, cols.program) ==> Contains(c, "[Program]"))
      && (Given(r, cols.variants) ==> Contains(c, "[Variants]"))
      && (c == "" <==>
           && (!Given(r, cols.command) || Trim(TextOf(r, cols.command)) == "")
           && !Given(r, cols.program) && !Given(r, cols.variants))
  {
    var parts := StrippedCommandParts(r, cols);
    var kept := NonBlank(parts);
    var joined := Join(kept, "\n\n");
    TrimIdempotent(joined);
    var c := if Given(r, cols.command) then 1 else 0;
    if Given(r, cols.command) {
      TrimEndBlankIff(TextOf(r, cols.command));
    }
    if Given(r, cols.program) {
      ProgramInCommand(r, cols, parts, c);
    }
    if Given(r, cols.variants) {
      VariantsInCommand(r, cols, parts);
    }
    if Given(r, cols.command) && Trim(TextOf(r, cols.command)) != "" {
      CommandTextInCommand(r, cols);
    }
    if !Given(r, cols.program) && !Given(r, cols.variants) {
      if Given(r, cols.command) && Trim(TextOf(r, cols.command)) == "" {
        BlankCommandAloneIsEmpty(r, cols);
      }
    }
  }

  /** A command cell with visible text leaves the command non-empty. */
  lemma CommandTextInCommand(r: Row, cols: StepColumns)
    requires Given(r, cols.command) && Trim(TextOf(r, cols.command)) != ""
    ensures StrippedCommand(r, cols) != ""
  {
    var parts := StrippedCommandParts(r, cols);
    var kept := NonBlank(parts);
    var joined := Join(kept, "\n\n");
    TrimEndBlankIff(TextOf(r, cols.command));
    var k := VisibleCharIn(parts[0]);
    NonBlankKeeps(parts, 0);
    var m :| 0 <= m < |kept| && kept[m] == parts[0];
    ContainsAt(parts[0], [parts[0][k]], k);
    ContainsJoinPiece(kept, "\n\n", m, [parts[0][k]]);
    ContainsTrim(joined, [parts[0][k]]);
  }

  /** A blank command cell with no program and no variants gives an empty command. */
  lemma BlankCommandAloneIsEmpty(r: Row, cols: StepColumns)
    requires Given(r, cols.command) && Trim(TextOf(r, cols.command)) == ""
    requires !Given(r, cols.program) && !Given(r, cols.variants)
    ensures StrippedCommand(r, cols) == ""
  {
    var parts := StrippedCommandParts(r, cols);
    TrimEndBlankIff(TextOf(r, cols.command));
    assert parts == [TrimEnd(TextOf(r, cols.command))];
    assert NonBlank(parts) == [];
  }

  /** A part that starts with a label survives the filter and shows in the command. */
  lemma LabelInCommand(parts: seq<string>, i: nat, caption: string, text: string, tag: string)
    requires i < |parts| && parts[i] == caption + text
    requires tag <= caption && tag != [] && !IsSpace(tag[0]) && !IsSpace(tag[|tag| - 1])
    ensures Contains(Trim(Join(NonBlank(parts), "\n\n")), tag)
  {
    var kept := NonBlank(parts);
    assert parts[i][0] == tag[0];
    TrimVisibleStart(parts[i]);
    NonBlankKeeps(parts, i);
    var m :| 0 <= m < |kept| && kept[m] == parts[i];
    LabelledPartContains(caption, text, tag);
    ContainsJoinPiece(kept, "\n\n", m, tag);
    ContainsTrim(Join(kept, "\n\n"), tag);
  }

  lemma ProgramInCommand(r: Row, cols: StepColumns, parts: seq<string>, c: nat)
    requires parts == StrippedCommandParts(r, cols) && Given(r, cols.program)
    requires c == if Given(r, cols.command) then 1 else 0
    ensures Contains(StrippedCommand(r, cols), "[Program]")
  {
    assert parts[c] == "[Program] " + Trim(TextOf(r, cols.program));
    LabelInCommand(parts, c, "[Program] ", Trim(TextOf(r, cols.program)), "[Program]");
  }

  lemma VariantsInCommand(r: Row, cols: StepColumns, parts: seq<string>)
    requires parts == StrippedCommandParts(r, cols) && Given(r, cols.variants)
    ensures Contains(StrippedCommand(r, cols), "[Variants]")
  {
    var v := |parts| - 1;
    assert parts[v] == "[Variants] " + Trim(TextOf(r, cols.variants));
    LabelInCommand(parts, v, "[Variants] ", Trim(TextOf(r, cols.variants)), "[Variants]");
  }

  /** When the command cell, if given, is not blank and the Program and
      Variants cells carry no surrounding spaces, the command is the one
      `checklist_builder.py` builds. */
  lemma CommandAgreesWithBase(r: Row, cols: StepColumns)
    requires Given(r, cols.command) ==> Trim(TextOf(r, cols.command)) != ""
    requires Given(r, cols.program) ==> Trim(TextOf(r, cols.program)) == TextOf(r, cols.program)
    requires Given(r, cols.variants) ==> Trim(TextOf(r, cols.variants)) == TextOf(r, cols.variants)
    ensures StrippedCommand(r, cols) == Command(r, cols)
  {
    var parts := StrippedCommandParts(r, cols);
    assert parts == CommandParts(r, cols);
    if Given(r, cols.command) {
      TrimEndBlankIff(TextOf(r, cols.command));
    }
    forall k | 0 <= k < |parts|
      ensures Trim(parts[k]) != ""
    {
      if parts[k] != TrimEnd(TextOf(r, cols.command)) || !Given(r, cols.command) || k > 0 {
        if Given(r, cols.command) && k == 0 {
        } else {
          TrimVisibleStart(parts[k]);
        }
      }
    }
    NonBlankAll(parts);
  }

  /** The loader differs from `checklist_builder.py` in the command only. */
  lemma StepOfMatchesBase(cols: StepColumns, r: Row, idx: nat)
    ensures StepOf(cols, r, idx).(command := "") == Base.StepOf(cols, r, idx).(command := "")
    ensures StepOf(cols, r, idx).command == StrippedCommand(r, cols)
  {
  }

  /** `load_steps_from_excel` after the sheet is read: one step per row that
      is not empty, then the stable sort by order. */
  method LoadSteps(f: Frame) returns (steps: seq<Step>)
    ensures steps == SortSteps(StepsFrom(f, |f.rows|, MakeStep(ResolveColumns(f.columns))))
    ensures SortedBy(steps, StepOrder, IntLess)
    ensures multiset(steps) == multiset(StepsFrom(f, |f.rows|, MakeStep(ResolveColumns(f.columns))))
  {
    var cols := ResolveColumns(f.columns);
    var unsorted := CollectSteps(f, MakeStep(cols));
    steps := SortSteps(unsorted);
    SortStepsSorts(unsorted);
  }

  // ---------------------------------------------------------------------
  // build_default_meta
  // ---------------------------------------------------------------------

  const DefaultAppTitle := "Checklist"
  const DefaultRepo := "/workspaces/EdxBuild"

  function MetaDefaults(stem: string, sheet: Dict): seq<(string, string)> {
    var appTitle := GetOr(sheet, "APP_TITLE", DefaultAppTitle);
    [ ("APP_TITLE", DefaultAppTitle), ("APP_TITLE_VISIBLE", appTitle), ("META_REPO", DefaultRepo),
      ("META_ENTITY", ""), ("META_SOP_DEFAULT", ""), ("META_IMG_FOLDER_DEF", ""),
      ("META_WEBROOT", ""), ("RUN_LABEL_DEFAULT", stem) ]
  }

  lemma MetaDefaultsDistinct(stem: string, sheet: Dict)
    ensures DistinctKeys(MetaDefaults(stem, sheet))
  {
    var d := MetaDefaults(stem, sheet);
    assert DistinctKeys(d);
  }

  /** `build_default_meta(spec_path, excel_meta)` with `stem` the spec file's stem. */
  function DefaultMeta(stem: string, sheet: Dict): Dict {
    WithFallbacks(sheet, MetaDefaults(stem, sheet))
  }

  /** The result always has exactly the eight placeholder keys, in order. */
  lemma DefaultMetaKeys(stem: string, sheet: Dict)
    ensures Keys(DefaultMeta(stem, sheet)) == ["APP_TITLE", "APP_TITLE_VISIBLE", "META_REPO", "META_ENTITY",
                     "META_SOP_DEFAULT", "META_IMG_FOLDER_DEF", "META_WEBROOT", "RUN_LABEL_DEFAULT"]
    ensures DistinctKeys(DefaultMeta(stem, sheet))
  {
    var d := MetaDefaults(stem, sheet);
    MetaDefaultsDistinct(stem, sheet);
    WithFallbacksGet(sheet, d, 0);
  }

  /** A title key the sheet lacks takes its default, the visible title
      falling back to the title. */
  lemma DefaultMetaTitleFallbacks(stem: string, sheet: Dict)
    ensures var m := DefaultMeta(stem, sheet);
      && (Get(sheet, "APP_TITLE").None? ==> Get(m, "APP_TITLE") == Some(DefaultAppTitle))
      && (Get(sheet, "APP_TITLE_VISIBLE").None? ==> Get(m, "APP_TITLE_VISIBLE") == Get(m, "APP_TITLE"))
      && (Get(sheet, "META_REPO").None? ==> Get(m, "META_REPO") == Some(DefaultRepo))
      && (Get(sheet, "META_ENTITY").None? ==> Get(m, "META_ENTITY") == Some(""))
  {
    var d := MetaDefaults(stem, sheet);
    WithFallbacksAt(sheet, d, 0);
    WithFallbacksAt(sheet, d, 1);
    WithFallbacksAt(sheet, d, 2);
    WithFallbacksAt(sheet, d, 3);
  }

  /** The other keys the sheet lacks are empty, except the run label, which
      is the spec stem. */
  lemma DefaultMetaOtherFallbacks(stem: string, sheet: Dict)
    ensures var m := DefaultMeta(stem, sheet);
      && (Get(sheet, "META_SOP_DEFAULT").None? ==> Get(m, "META_SOP_DEFAULT") == Some(""))
      && (Get(sheet, "META_IMG_FOLDER_DEF").None? ==> Get(m, "META_IMG_FOLDER_DEF") == Some(""))
      && (Get(sheet, "META_WEBROOT").None? ==> Get(m, "META_WEBROOT") == Some(""))
      && (Get(sheet, "RUN_LABEL_DEFAULT").None? ==> Get(m, "RUN_LABEL_DEFAULT") == Some(stem))
  {
    var d := MetaDefaults(stem, sheet);
    WithFallbacksAt(sheet, d, 4);
    WithFallbacksAt(sheet, d, 5);
    WithFallbacksAt(sheet, d, 6);
    WithFallbacksAt(sheet, d, 7);
  }

  // ---------------------------------------------------------------------
  // Template patching
  // ---------------------------------------------------------------------

  /** `let\s+steps\s*=\s*` `[...]` `\s*;`, with no word boundary in front. */
  const StepsBlock := LetAssignment("steps", '[', ']', false)
  const TitlePlaceholder := "{{APP_TITLE}}"
  const VisibleTitlePlaceholder := "{{APP_TITLE_VISIBLE}}"

  /** Why a build stops: the template has nowhere to put the steps, or a
      replacement text is not a valid `re.sub` template (as written only). */
  datatype BuildError = NoStepsBlock | BadReplacementTemplate

  /** `_inject_steps`: the placeholder when there is one, else the bracketed
      value of the first `let steps = [...];`, with the JSON taken literally. */
  function InjectSteps(html: string, stepsJson: string): Result<string, BuildError> {
    if Contains(html, StepsPlaceholder) then Ok(ReplaceAll(html, StepsPlaceholder, stepsJson))
    else if Matches(StepsBlock, html) then Ok(ReplaceValue(StepsBlock, html, stepsJson))
    else Err(NoStepsBlock)
  }

  /** The build stops exactly when the template has neither target. */
  lemma InjectStepsFails(html: string, stepsJson: string)
    ensures InjectSteps(html, stepsJson).Err? <==> !Contains(html, StepsPlaceholder) && !Matches(StepsBlock, html)
  {
  }

  /** With the placeholder, the JSON stands at each of its places and the
      text between them is kept. */
  lemma InjectStepsAtPlaceholder(html: string, stepsJson: string)
    requires Contains(html, StepsPlaceholder)
    ensures InjectSteps(html, stepsJson) == Ok(Join(Split(html, StepsPlaceholder), stepsJson))
    ensures Contains(InjectSteps(html, stepsJson).value, stepsJson)
  {
    ReplaceAllIsJoinOfSplit(html, StepsPlaceholder, stepsJson);
    ReplaceAllInserts(html, StepsPlaceholder, stepsJson);
  }

  /** Otherwise the brackets of the first steps block, and everything
      between them, give way to the JSON; the rest is kept. */
  lemma InjectStepsIntoBlock(html: string, stepsJson: string)
    requires !Contains(html, StepsPlaceholder) && Matches(StepsBlock, html)
    ensures var m := FirstMatch(StepsBlock, html, 0).value;
      && Bracketed(html, m, '[', ']')
      && InjectSteps(html, stepsJson) == Ok(html[..m.valueStart] + stepsJson + html[m.valueEnd..])
      && NoMatchIn(StepsBlock, html, 0, m.start)
  {
    InjectStepsByBlock(html, stepsJson);
    LetValueSpliced(StepsBlock, html, stepsJson);
  }

  lemma InjectStepsByBlock(html: string, stepsJson: string)
    requires !Contains(html, StepsPlaceholder) && Matches(StepsBlock, html)
    ensures InjectSteps(html, stepsJson) == Ok(ReplaceValue(StepsBlock, html, stepsJson))
  {
  }

  /** `_replace_or_patch_title`, with the title taken literally. */
  function PatchTitle(html: string, title: string): string {
    if Contains(html, TitlePlaceholder) then ReplaceAll(html, TitlePlaceholder, title)
    else ReplaceValue(TitleElement, html, title)
  }

  /** `_replace_or_patch_header_title`, with the text taken literally. */
  function PatchHeaderTitle(html: string, visible: string): string {
    if Contains(html, VisibleTitlePlaceholder) then ReplaceAll(html, VisibleTitlePlaceholder, visible)
    else ReplaceValue(HeaderTitleDiv, html, visible)
  }

  /** Without the placeholder, the text between the first `<title>` and the
      next `</title>` (any case) becomes the title and both tags stay; a
      template with neither is unchanged. */
  lemma PatchTitleKeepsTags(html: string, title: string)
    ensures !Contains(html, TitlePlaceholder) && !Matches(TitleElement, html) ==> PatchTitle(html, title) == html
    ensures !Contains(html, TitlePlaceholder) && Matches(TitleElement, html) ==>
      var m := FirstMatch(TitleElement, html, 0).value;
      && OccursAt(Lower(html), "<title>", m.start) && m.valueStart == m.start + 7
      && OccursAt(Lower(html), "</title>", m.valueEnd)
      && PatchTitle(html, title) == html[..m.valueStart] + title + html[m.valueEnd..]
      && NoMatchIn(TitleElement, html, 0, m.start)
  {
    if !Contains(html, TitlePlaceholder) && Matches(TitleElement, html) {
      ReplaceValueKeepsOutside(TitleElement, html, title);
      TitleElementShape(html);
    }
  }

  /** Without the placeholder, the content of the first `<div ...>` whose
      attributes hold `id="headerTitle"` becomes the visible title, and the
      opening tag and the next `</div>` stay; a template with neither is
      unchanged. */
  lemma PatchHeaderTitleKeepsTags(html: string, visible: string)
    ensures !Contains(html, VisibleTitlePlaceholder) && !Matches(HeaderTitleDiv, html) ==>
      PatchHeaderTitle(html, visible) == html
    ensures !Contains(html, VisibleTitlePlaceholder) && Matches(HeaderTitleDiv, html) ==>
      var m := FirstMatch(HeaderTitleDiv, html, 0).value;
      && OccursAt(Lower(html), "<div", m.start) && html[m.valueStart - 1] == '>'
      && OccursAt(Lower(html), "</div>", m.valueEnd)
      && PatchHeaderTitle(html, visible) == html[..m.valueStart] + visible + html[m.valueEnd..]
      && NoMatchIn(HeaderTitleDiv, html, 0, m.start)
  {
    if !Contains(html, VisibleTitlePlaceholder) && Matches(HeaderTitleDiv, html) {
      ReplaceValueKeepsOutside(HeaderTitleDiv, html, visible);
      HeaderTitleDivShape(html);
    }
  }

  /** The title and visible title `apply_template` passes on. */
  function TitleOf(meta: Dict): string {
    GetOr(meta, "APP_TITLE", "Checklist")
  }

  function VisibleTitleOf(meta: Dict): string {
    GetOr(meta, "APP_TITLE_VISIBLE", TitleOf(meta))
  }

  /** The steps, then the title, then the visible title, then every meta
      placeholder still in the text. */
  function Render(text: string, stepsJson: string, meta: Dict): Result<string, BuildError> {
    match InjectSteps(text, stepsJson)
    case Err(e) => Err(e)
    case Ok(injected) =>
      var patched := PatchHeaderTitle(PatchTitle(injected, TitleOf(meta)), VisibleTitleOf(meta));
      Ok(ReplaceEach(patched, MetaPairs(meta)))
  }

  /** The substitution part of `apply_template`. */
  method ApplyTemplate(text: string, stepsJson: string, meta: Dict) returns (out: Result<string, BuildError>)
    ensures out == Render(text, stepsJson, meta)
  {
    var injected := InjectSteps(text, stepsJson);
    if injected.Err? {
      return Err(injected.error);
    }
    var html := PatchTitle(injected.value, TitleOf(meta));
    html := PatchHeaderTitle(html, VisibleTitleOf(meta));
    html := ReplacePresent(html, meta);
    out := Ok(html);
  }

  /** The placeholder loop of `apply_template`: each `{{key}}` is replaced
      only when it is present, which is the same as replacing it always. */
  method ReplacePresent(patched: string, meta: Dict) returns (html: string)
    ensures html == ReplaceEach(patched, MetaPairs(meta))
  {
    var pairs := MetaPairs(meta);
    html := patched;
    var k := 0;
    while k < |meta|
      invariant k <= |meta|
      invariant html == ReplaceEach(patched, pairs[..k])
    {
      ReplaceEachStep(patched, pairs, k);
      var placeholder := "{{" + meta[k].0 + "}}";
      if Contains(html, placeholder) {
        html := ReplaceAll(html, placeholder, meta[k].1);
      } else {
        ReplaceAllAbsent(html, placeholder, meta[k].1);
      }
      k := k + 1;
    }
    assert pairs[..k] == pairs;
  }

  /** The whole build; `stepsJson` stands for `json.dumps` of the steps. */
  method Build(steps: Frame, header: Option<Frame>, stem: string, template: string,
               stepsJson: seq<Step> -> string) returns (html: Result<string, BuildError>)
    ensures html == Render(template,
      stepsJson(SortSteps(StepsFrom(steps, |steps.rows|, MakeStep(ResolveColumns(steps.columns))))),
      DefaultMeta(stem, Meta(header, false)))
  {
    var loaded := LoadSteps(steps);
    var meta := ReadMeta(header, false);
    html := ApplyTemplate(template, stepsJson(loaded), DefaultMeta(stem, meta));
  }

  // ---------------------------------------------------------------------
  // The replacement texts as written: `rf"\1{text}\3"` templates
  // ---------------------------------------------------------------------

  /** `_inject_steps` as written: the JSON goes into an `re.sub` template. */
  function InjectStepsAsWritten(html: string, stepsJson: string): Result<string, BuildError> {
    if Contains(html, StepsPlaceholder) then Ok(ReplaceAll(html, StepsPlaceholder, stepsJson))
    else if Matches(StepsBlock, html) then
      match SubValueAsWritten(StepsBlock, html, stepsJson)
      case None => Err(BadReplacementTemplate)
      case Some(out) => Ok(out)
    else Err(NoStepsBlock)
  }

  /** `_replace_or_patch_title` as written; `None` is the `re.error` raised
      for a malformed template. */
  function PatchTitleAsWritten(html: string, title: string): Option<string> {
    if Contains(html, TitlePlaceholder) then Some(ReplaceAll(html, TitlePlaceholder, title))
    else SubValueAsWritten(TitleElement, html, title)
  }

  /** `_replace_or_patch_header_title` as written: the visible title goes
      into an `re.sub` template too; `None` is the `re.error`. */
  function PatchHeaderTitleAsWritten(html: string, visible: string): Option<string> {
    if Contains(html, VisibleTitlePlaceholder) then Some(ReplaceAll(html, VisibleTitlePlaceholder, visible))
    else SubValueAsWritten(HeaderTitleDiv, html, visible)
  }

  /** JSON without a backslash (JSON always starts with `[` or `{` here)
      goes in as written and as intended alike. */
  lemma InjectStepsAsWrittenAgrees(html: string, stepsJson: string)
    requires forall k :: 0 <= k < |stepsJson| ==> stepsJson[k] != '\\'
    requires stepsJson == [] || !IsDigit(stepsJson[0])
    ensures InjectStepsAsWritten(html, stepsJson) == InjectSteps(html, stepsJson)
  {
    SubValueAgrees(StepsBlock, html, stepsJson);
  }

  /** So does a title without a backslash that does not start with a digit. */
  lemma PatchTitleAsWrittenAgrees(html: string, title: string)
    requires forall k :: 0 <= k < |title| ==> title[k] != '\\'
    requires title == [] || !IsDigit(title[0])
    ensures PatchTitleAsWritten(html, title) == Some(PatchTitle(html, title))
  {
    SubValueAgrees(TitleElement, html, title);
  }

  /** A title starting with a digit that makes `\1` a two-digit group number
      stops the build with `re.error`, whatever the template holds. */
  lemma PatchTitleAsWrittenRejectsDigit(html: string, title: string)
    requires !Contains(html, TitlePlaceholder)
    requires title == "5"
    ensures PatchTitleAsWritten(html, title) == None
    ensures PatchTitle(html, title) == ReplaceValue(TitleElement, html, title)
  {
    var t := ValueTemplate(title);
    assert t[0] == '\\' && t[1] == '1' && t[2] == '5' && t[3] == '\\';
    assert DigitValue('1') == 1 && DigitValue('5') == 5;
    assert ParseEscape(t, 0, 3) == None;
  }

  /** The title "2024" on a template with a `<title>` element and no
      placeholder: the template reads `\120` as the octal code of `P`, so
      the opening `<title>` tag is lost, where the literal replacement keeps
      it. */
  lemma PatchTitleAsWrittenLosesTag(html: string, title: string)
    requires !Contains(html, TitlePlaceholder) && Matches(TitleElement, html)
    requires title == "2024"
    ensures var m := FirstMatch(TitleElement, html, 0).value;
      && PatchTitleAsWritten(html, title) == Some(html[..m.start] + "P24" + html[m.valueEnd..])
      && OccursAt(Lower(html), "<title>", m.start) && m.valueStart == m.start + 7
  {
    var t := ValueTemplate(title);
    assert t == "\\12024\\3";
    OctalTitleTemplate(t);
    SubParsedDropsPrefix(TitleElement, html, "P24");
  }

  lemma OctalTitleTemplate(t: string)
    requires t == "\\12024\\3"
    ensures ParseTemplate(t, 3) == Some(Lits("P24") + [Group(3)])
  {
    ParseEndGroup(t, 3);
    assert DigitValue('3') == 3;
    var rest := ParseFrom(t, 6, 3);
    assert rest == Some([Group(3)]);
    ParseLiteralRun(t, 4, 6, 3);
    assert Lits(t[4..6]) == [Lit('2'), Lit('4')];
    assert ParseFrom(t, 4, 3) == Prepend(Lits(t[4..6]), rest);
    assert [Lit('2'), Lit('4')] + [Group(3)] == [Lit('2'), Lit('4'), Group(3)];
    assert Prepend([Lit('2'), Lit('4')], Some([Group(3)])) == Some([Lit('2'), Lit('4'), Group(3)]);
    assert ParseFrom(t, 4, 3) == Some([Lit('2'), Lit('4'), Group(3)]);
    assert t[1] == '1' && t[2] == '2' && t[3] == '0';
    assert DigitValue('1') == 1 && DigitValue('2') == 2 && DigitValue('0') == 0;
    ParseOctalEscape(t, 0, 3);
    assert ParseFrom(t, 0, 3) == Prepend([Lit(80 as char)], ParseFrom(t, 4, 3));
    assert (80 as char) == 'P';
    assert [Lit('P')] + [Lit('2'), Lit('4'), Group(3)] == [Lit('P'), Lit('2'), Lit('4'), Group(3)];
    assert ParseFrom(t, 0, 3) == Some([Lit('P'), Lit('2'), Lit('4'), Group(3)]);
    assert Lits("P24") + [Group(3)] == [Lit('P'), Lit('2'), Lit('4'), Group(3)];
  }

  /** A visible title without a backslash that does not start with a digit
      is patched the same as written and as intended. */
  lemma PatchHeaderTitleAsWrittenAgrees(html: string, visible: string)
    requires forall k :: 0 <= k < |visible| ==> visible[k] != '\\'
    requires visible == [] || !IsDigit(visible[0])
    ensures PatchHeaderTitleAsWritten(html, visible) == Some(PatchHeaderTitle(html, visible))
  {
    SubValueAgrees(HeaderTitleDiv, html, visible);
  }

  /** The visible title "2024" on a template with a `headerTitle` div and no
      placeholder: `\12024` reads as the octal code of `P`, so the opening
      `<div ...>` tag is lost, where the literal replacement keeps it. */
  lemma PatchHeaderTitleAsWrittenLosesTag(html: string, visible: string)
    requires !Contains(html, VisibleTitlePlaceholder) && Matches(HeaderTitleDiv, html)
    requires visible == "2024"
    ensures var m := FirstMatch(HeaderTitleDiv, html, 0).value;
      && PatchHeaderTitleAsWritten(html, visible) == Some(html[..m.start] + "P24" + html[m.valueEnd..])
      && OccursAt(Lower(html), "<div", m.start) && html[m.valueStart - 1] == '>'
  {
    var t := ValueTemplate(visible);
    assert t == "\\12024\\3";
    OctalTitleTemplate(t);
    SubParsedDropsPrefix(HeaderTitleDiv, html, "P24");
    HeaderTitleDivShape(html);
  }

  /** A visible title that starts with a digit making `\1` a two-digit group
      number stops the build with `re.error`. */
  lemma PatchHeaderTitleAsWrittenRejectsDigit(html: string, visible: string)
    requires !Contains(html, VisibleTitlePlaceholder)
    requires visible == "5"
    ensures PatchHeaderTitleAsWritten(html, visible) == None
    ensures PatchHeaderTitle(html, visible) == ReplaceValue(HeaderTitleDiv, html, visible)
  {
    var t := ValueTemplate(visible);
    assert t[0] == '\\' && t[1] == '1' && t[2] == '5' && t[3] == '\\';
    assert DigitValue('1') == 1 && DigitValue('5') == 5;
    assert ParseEscape(t, 0, 3) == None;
  }

  /** A visible title holding a Windows path such as `C:\Users`: `\U` is a
      bad escape, so the build stops with `re.error`, whatever the template
      holds. */
  lemma PatchHeaderTitleAsWrittenRejectsBackslash(html: string, visible: string)
    requires !Contains(html, VisibleTitlePlaceholder)
    requires visible == "C:\\Users"
    ensures PatchHeaderTitleAsWritten(html, visible) == None
    ensures PatchHeaderTitle(html, visible) == ReplaceValue(HeaderTitleDiv, html, visible)
  {
    assert visible[0] == 'C' && visible[1] == ':' && visible[2] == '\\' && visible[3] == 'U';
    assert SimpleEscape('U') == None;
    BadEscapeRejected(visible, 2);
  }

  /** Steps whose text holds a line break, which `json.dumps` writes as
      `\n`: in any template with a steps block and no placeholder, the
      template turns the escape back into a real line break inside the
      JavaScript string, where the literal replacement keeps it. */
  lemma InjectStepsAsWrittenUnescapes(html: string, stepsJson: string)
    requires !Contains(html, StepsPlaceholder) && Matches(StepsBlock, html)
    requires stepsJson == "[\"\\n\"]"
    ensures InjectStepsAsWritten(html, stepsJson) == Ok(ReplaceValue(StepsBlock, html, "[\"\n\"]"))
    ensures InjectSteps(html, stepsJson) == Ok(ReplaceValue(StepsBlock, html, stepsJson))
    ensures "[\"\n\"]" != stepsJson
  {
    NewlineStepsSub(html, stepsJson, "[\"\n\"]");
    assert "[\"\n\"]"[3] != stepsJson[3];
  }

  lemma NewlineStepsSub(html: string, stepsJson: string, v: string)
    requires stepsJson == "[\"\\n\"]" && v == "[\"\n\"]"
    ensures SubValueAsWritten(StepsBlock, html, stepsJson) == Some(ReplaceValue(StepsBlock, html, v))
  {
    var t := ValueTemplate(stepsJson);
    assert t == "\\1[\"\\n\"]\\3";
    NewlineStepsTemplate(t, v);
    SubParsedPlain(StepsBlock, html, v);
  }

  lemma NewlineStepsTemplate(t: string, v: string)
    requires t == "\\1[\"\\n\"]\\3" && v == "[\"\n\"]"
    ensures ParseTemplate(t, 3) == Some([Group(1)] + Lits(v) + [Group(3)])
  {
    NewlineStepsTemplateTail(t);
    assert t[0] == '\\' && t[1] == '1' && t[2] == '[' && DigitValue('1') == 1;
    ParseOneDigitGroup(t, 0, 3);
    assert ParseFrom(t, 0, 3) == GroupRef(1, 3, ParseFrom(t, 2, 3));
    assert Lits(v) == [Lit('['), Lit('"'), Lit('\n'), Lit('"'), Lit(']')];
    assert [Group(1)] + Lits(v) + [Group(3)]
        == [Group(1)] + [Lit('['), Lit('"'), Lit('\n'), Lit('"'), Lit(']'), Group(3)];
  }

  lemma NewlineStepsTemplateTail(t: string)
    requires t == "\\1[\"\\n\"]\\3"
    ensures ParseFrom(t, 2, 3) == Some([Lit('['), Lit('"'), Lit('\n'), Lit('"'), Lit(']'), Group(3)])
  {
    ParseEndGroup(t, 3);
    assert DigitValue('3') == 3;
    var rest := ParseFrom(t, 8, 3);
    assert rest == Some([Group(3)]);
    ParseLiteralRun(t, 6, 8, 3);
    assert Lits(t[6..8]) == [Lit('"'), Lit(']')];
    assert ParseFrom(t, 6, 3) == Prepend(Lits(t[6..8]), rest);
    assert [Lit('"'), Lit(']')] + [Group(3)] == [Lit('"'), Lit(']'), Group(3)];
    assert ParseFrom(t, 6, 3) == Some([Lit('"'), Lit(']'), Group(3)]);
    assert t[4] == '\\' && t[5] == 'n';
    ParseSimpleEscape(t, 4, 3);
    assert ParseFrom(t, 4, 3) == Prepend([Lit('\n')], ParseFrom(t, 6, 3));
    assert [Lit('\n')] + [Lit('"'), Lit(']'), Group(3)] == [Lit('\n'), Lit('"'), Lit(']'), Group(3)];
    ParseLiteralRun(t, 2, 4, 3);
    assert Lits(t[2..4]) == [Lit('['), Lit('"')];
    assert ParseFrom(t, 2, 3) == Prepend(Lits(t[2..4]), ParseFrom(t, 4, 3));
    assert [Lit('['), Lit('"')] + [Lit('\n'), Lit('"'), Lit(']'), Group(3)]
        == [Lit('['), Lit('"'), Lit('\n'), Lit('"'), Lit(']'), Group(3)];
  }
}
