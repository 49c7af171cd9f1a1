# Checklist builders — a Dafny model

The repository turns an Excel specification (a Steps sheet and an optional
Header sheet) into an HTML checklist by filling a template. Five builders
do this, each in its own way:

- `checklist_builder_v5.py` reads the workbook with openpyxl. It finds the
  header row of the Steps sheet by counting known column spellings. It reads
  the Header sheet both as key/value rows and as a row of field names over a
  row of values, merges the two, builds the `sopInfo` object, and rewrites the
  `let sopInfo = {...};` and `let steps = [...];` blocks of the template.
- `Prev/checklist_builder_251114_1609.py` reads the sheets with pandas
  (`Field`/`Value` header, `StepOrder` sort with a string fallback), builds
  step dictionaries with a multi-line reminder, escapes `</script>` in the
  steps JSON, fills seven placeholders and chooses the output file name
  with `slugify`.
- `checklist_builder.py`, `checklist_builder_v4f1.py` and
  `checklist_builder_v4f_v1a.py` share `col_lookup`, the row loop over the
  Steps sheet, the Header key/value reader, `build_default_meta` and the
  placeholder fill. v4f1 also turns each StepID into a safe HTML id
  (`slugify_step_id`) and makes ids unique (`ensure_unique_id`). v4f_v1a also
  patches the `<title>`, the `headerTitle` div and the `let steps = [...];`
  block with `re.sub` when the template has no placeholder.

The model has one module per builder and shared modules for what the
builders share:

| module | models |
|---|---|
| `Strings` | `str.strip`/`rstrip`, `lower`, `in`, `replace`, `join`, `int`/`str` of integers |
| `OrderedDict` | a Python `dict[str, str]` as an insertion-ordered list of entries |
| `Sheet` | cells (empty, text, whole number), rows, pandas frames, `norm` and `str` of a cell |
| `StableSort` | `list.sort(key=...)`, stable |
| `Patterns` | the regular expressions of v5 and v4f_v1a as leftmost matchers with lazy bodies |
| `RegexTemplate` | how `re.sub` reads a replacement template (`\1`, `\g<1>`, octal and letter escapes) |
| `PandasCommon` | `col_lookup`, the shared row loop, the Header reader, the fallbacks and `apply_template` |
| `ChecklistBuilderV5`, `ChecklistBuilderPrev`, `ChecklistBuilderBase`, `ChecklistBuilderV4f1`, `ChecklistBuilderV4fV1a` | one builder each |

The loops of the source become methods with loop invariants, each proved
equal to a specification function. Python's mutable `used_ids` set becomes
the class `ChecklistBuilderV4f1.UsedIds`. The file system, the clock and
`json.dumps` are left to the caller. The JSON text of the steps is a
parameter, or a function of the steps.

## Model

| member | source | states |
|---|---|---|
| `PandasCommon.FirstIn` | Root/Chk_Lst/src/checklist_builder.py:45-47 | the first candidate present among the stripped labels: all earlier candidates are absent |
| `PandasCommon.LastIndex` | Root/Chk_Lst/src/checklist_builder.py:44 | a label-to-column dict built left to right finds the last column with that label, and nothing when no column has it |
| `PandasCommon.FirstFoundIsFirstCandidate` | Root/Chk_Lst/src/checklist_builder.py:45-47 | the candidate loop returns the last column named by the first candidate present, else nothing |
| `PandasCommon.ColLookupPriority` | Root/Chk_Lst/src/checklist_builder.py:39-54 | every candidate is tried on stripped labels before any is tried lower-cased; candidates are tried in order |
| `PandasCommon.ColLookupNone` | Root/Chk_Lst/src/checklist_builder_v4f1.py:29-40 | `col_lookup` gives None exactly when no candidate matches any column, neither exactly nor ignoring case |
| `PandasCommon.NonBlankNotBlank` | Root/Chk_Lst/src/checklist_builder.py:137 | the filtered parts are all non-blank |
| `PandasCommon.NonBlankAll` | Root/Chk_Lst/src/checklist_builder_v4f_v1a.py:88 | a list with no blank part passes the filter whole |
| `PandasCommon.NonBlankKeeps` | Root/Chk_Lst/src/checklist_builder_v4f_v1a.py:88 | a part that is not blank survives the filter |
| `PandasCommon.LabelledNonBlank` | Root/Chk_Lst/src/checklist_builder.py:130-137 | labelled reminder parts are never blank, and there are none exactly when no cell is given |
| `PandasCommon.ReminderEmptyIff` | Root/Chk_Lst/src/checklist_builder.py:130-137 | the reminder is empty exactly when none of its cells is given |
| `PandasCommon.CommandShape` | Root/Chk_Lst/src/checklist_builder.py:120-127 | the command is stripped, contains `[Program]`/`[Variants]` when those cells are given, and is empty when none of its three cells is |
| `PandasCommon.WithFallbacksGet` | Root/Chk_Lst/src/checklist_builder.py:196-212 | the defaults dict has exactly the listed keys in order, each with the sheet's value if present, else its default |
| `PandasCommon.WithFallbacksAt` | Root/Chk_Lst/src/checklist_builder_v4f1.py:198-217 | the value of one listed key: the sheet's value, else its default |
| `PandasCommon.WithFallbacksSheetWins` | Root/Chk_Lst/src/checklist_builder.py:196-202 | a key the sheet gives keeps the sheet's value, even an empty one; every builder's `build_default_meta` is this fallback over its own defaults, so this holds for all three |
| `PandasCommon.CollectSteps` | Root/Chk_Lst/src/checklist_builder.py:90-148 | the row loop returns one step per non-empty row, in row order, built with the row's index |
| `PandasCommon.StepsFromRows` | Root/Chk_Lst/src/checklist_builder.py:91-94 | every step comes from a non-empty row, and every non-empty row gives its step |
| `PandasCommon.SortStepsSorts` | Root/Chk_Lst/src/checklist_builder.py:151 | the sort is a permutation, ordered by `order`, and stable for equal orders |
| `PandasCommon.MetaRowsDistinct` | Root/Chk_Lst/src/checklist_builder.py:179-184 | the meta dict never holds a key twice |
| `PandasCommon.ReadMeta` | Root/Chk_Lst/src/checklist_builder.py:166-186 | the Header loop computes the meta dict of the specification function |
| `PandasCommon.MetaRowsLastWins` | Root/Chk_Lst/src/checklist_builder_v4f1.py:183-188 | each kept key maps to the stripped value of its last row; skipped keys (empty, and `nan` in v4f1) are absent |
| `PandasCommon.MetaContents` | Root/Chk_Lst/src/checklist_builder.py:172-186 | no Header sheet, or fewer than two columns, gives an empty dict; otherwise last-row-wins per key |
| `PandasCommon.MetaPairs` | Root/Chk_Lst/src/checklist_builder.py:226-227 | one placeholder per meta entry, each starting with `{{` |
| `PandasCommon.ApplyTemplate` | Root/Chk_Lst/src/checklist_builder.py:219-228 | the substitution loop replaces the steps placeholder, then each meta placeholder in dict order |
| `PandasCommon.FillTemplateNeedsBraces` | Root/Chk_Lst/src/checklist_builder.py:221-228 | a template without `{{` comes back unchanged |
| `PandasCommon.FillTemplateStepsFirst` | Root/Chk_Lst/src/checklist_builder.py:222-223 | the steps JSON stands at every `{{STEPS_JSON}}`, with the text between kept, before meta is filled |
| `ChecklistBuilderBase.ReminderEmptyIff3` | Root/Chk_Lst/src/checklist_builder.py:130-137 | the reminder is empty exactly when Inputs, Hints and Phase are all missing |
| `ChecklistBuilderBase.StepOfFields` | Root/Chk_Lst/src/checklist_builder.py:96-147 | the id is never empty: the raw StepID, else `step_<order>`; the title falls back to the id; the command is stripped; notes are empty |
| `ChecklistBuilderBase.LoadSteps` | Root/Chk_Lst/src/checklist_builder.py:79-152 | the steps are the rows' steps, sorted by order, as a permutation |
| `ChecklistBuilderBase.DuplicateIdsKept` | Root/Chk_Lst/src/checklist_builder.py:105-110 | two rows with the same StepID both keep it: ids are not made unique |
| `ChecklistBuilderBase.DefaultMetaKeys` | Root/Chk_Lst/src/checklist_builder.py:204-212 | exactly the seven placeholder keys, in order, no duplicates |
| `ChecklistBuilderBase.DefaultMetaValues` | Root/Chk_Lst/src/checklist_builder.py:196-202 | sheet values win; otherwise the documented defaults, the visible title falling back to the title and the run label to the stem |
| `ChecklistBuilderBase.Build` | Root/Chk_Lst/src/checklist_builder.py:215-228 | the page is the template filled with the sorted steps' JSON and the default meta |
| `ChecklistBuilderV4f1.DropLeading` | Root/Chk_Lst/src/checklist_builder_v4f1.py:53 | `lstrip("_")` removes exactly the leading underscores |
| `ChecklistBuilderV4f1.DropTrailing` | Root/Chk_Lst/src/checklist_builder_v4f1.py:53 | `rstrip("_")` removes exactly the trailing underscores |
| `ChecklistBuilderV4f1.CollapseShape` | Root/Chk_Lst/src/checklist_builder_v4f1.py:52 | the `re.sub` keeps letters and digits and leaves only single underscores between them |
| `ChecklistBuilderV4f1.CollapseHasAlnum` | Root/Chk_Lst/src/checklist_builder_v4f1.py:52 | the collapse has a letter or digit exactly when its input has one |
| `ChecklistBuilderV4f1.CollapseKeeps` | Root/Chk_Lst/src/checklist_builder_v4f1.py:52 | slug-shaped text passes through the collapse unchanged |
| `ChecklistBuilderV4f1.StripShape` | Root/Chk_Lst/src/checklist_builder_v4f1.py:53 | stripping `_` keeps an inner substring whose ends are not `_` |
| `ChecklistBuilderV4f1.StripHasAlnum` | Root/Chk_Lst/src/checklist_builder_v4f1.py:53 | stripping `_` keeps every letter and digit |
| `ChecklistBuilderV4f1.LowerKeepsShape` | Root/Chk_Lst/src/checklist_builder_v4f1.py:57 | lower-casing keeps the slug shape |
| `ChecklistBuilderV4f1.PrefixedShape` | Root/Chk_Lst/src/checklist_builder_v4f1.py:55-56 | a text starting with a digit gets `step_` and still has the slug shape |
| `ChecklistBuilderV4f1.SlugifyStepIdShape` | Root/Chk_Lst/src/checklist_builder_v4f1.py:43-57 | the slug has only `[a-z0-9_]`, no `_` at either end, no `__`, and does not start with a digit |
| `ChecklistBuilderV4f1.SlugifyStepIdEmptyIff` | Root/Chk_Lst/src/checklist_builder_v4f1.py:48-50 | the slug is empty exactly when the input has no ASCII letter or digit |
| `ChecklistBuilderV4f1.SlugifyStepIdFixes` | Root/Chk_Lst/src/checklist_builder_v4f1.py:43-57 | a slug comes back unchanged |
| `ChecklistBuilderV4f1.SlugifyStepIdIdempotent` | Root/Chk_Lst/src/checklist_builder_v4f1.py:43-57 | slugifying twice is slugifying once |
| `ChecklistBuilderV4f1.SlugifyStepIdExample` | Root/Chk_Lst/src/checklist_builder_v4f1.py:43-57 | the StepID "Step A" becomes `step_a` |
| `ChecklistBuilderV4f1.SuffixedInjective` | Root/Chk_Lst/src/checklist_builder_v4f1.py:66-68 | different suffix numbers give different names |
| `ChecklistBuilderV4f1.TakenSuffixesBound` | Root/Chk_Lst/src/checklist_builder_v4f1.py:66-67 | while suffixes are taken, the set is at least that large, so the search ends |
| `ChecklistBuilderV4f1.FirstFreeSuffix` | Root/Chk_Lst/src/checklist_builder_v4f1.py:65-67 | the loop stops at the least free suffix from 2 on |
| `ChecklistBuilderV4f1.UniqueIdIsLeastFree` | Root/Chk_Lst/src/checklist_builder_v4f1.py:60-70 | the id returned was not in use: the candidate when free, else `candidate_n` with the least free `n >= 2` |
| `ChecklistBuilderV4f1.UsedIds.EnsureUnique` | Root/Chk_Lst/src/checklist_builder_v4f1.py:60-70 | returns the least free id and adds exactly it to the set |
| `ChecklistBuilderV4f1.RepeatedStepIdsExample` | Root/Chk_Lst/src/checklist_builder_v4f1.py:60-70 | two rows with slug `step_a` get `step_a` and `step_a_2` |
| `ChecklistBuilderV4f1.SafeCandidate` | Root/Chk_Lst/src/checklist_builder_v4f1.py:119 | the candidate id is never empty |
| `ChecklistBuilderV4f1.SafeCandidateFallback` | Root/Chk_Lst/src/checklist_builder_v4f1.py:119 | a StepID without a letter or digit gives `step_<order>` |
| `ChecklistBuilderV4f1.StepOfFields` | Root/Chk_Lst/src/checklist_builder_v4f1.py:122-161 | the title is the title cell, else the raw id, else the safe id; the reminder is empty exactly when its five cells are missing |
| `ChecklistBuilderV4f1.ApplyKeepsIdsUnique` | Root/Chk_Lst/src/checklist_builder_v4f1.py:118-120 | one loop pass keeps the ids non-empty, recorded as used and pairwise distinct |
| `ChecklistBuilderV4f1.StepsUpToIds` | Root/Chk_Lst/src/checklist_builder_v4f1.py:97-162 | after any number of rows the ids are non-empty and pairwise distinct |
| `ChecklistBuilderV4f1.NextAppends` | Root/Chk_Lst/src/checklist_builder_v4f1.py:100-162 | a pass only appends: one step for a non-empty row, none for an empty one |
| `ChecklistBuilderV4f1.StepsUpToRows` | Root/Chk_Lst/src/checklist_builder_v4f1.py:100-111 | every non-empty row gives a step with that row's order |
| `ChecklistBuilderV4f1.SortedIdsUnique` | Root/Chk_Lst/src/checklist_builder_v4f1.py:164 | sorting keeps the ids non-empty and distinct |
| `ChecklistBuilderV4f1.Advance` | Root/Chk_Lst/src/checklist_builder_v4f1.py:100-162 | one pass of the loop body, asking the used-id set for the id, equals the specification step |
| `ChecklistBuilderV4f1.CollectUniqueSteps` | Root/Chk_Lst/src/checklist_builder_v4f1.py:97-162 | the row loop yields the specification's steps |
| `ChecklistBuilderV4f1.LoadSteps` | Root/Chk_Lst/src/checklist_builder_v4f1.py:85-165 | the loaded steps are sorted by order and have non-empty, pairwise distinct ids |
| `ChecklistBuilderV4f1.LoadedSteps` | Root/Chk_Lst/src/checklist_builder_v4f1.py:164-165 | the sorted steps are ordered, with non-empty distinct ids |
| `ChecklistBuilderV4f1.DefaultMetaKeys` | Root/Chk_Lst/src/checklist_builder_v4f1.py:208-217 | exactly the eight placeholder keys, in order |
| `ChecklistBuilderV4f1.DefaultMetaTitleFallbacks` | Root/Chk_Lst/src/checklist_builder_v4f1.py:198-202 | missing title keys: "SOP Build Checklist v5", the visible title falls back to the title, repo "/workspaces/EdxBuild", entity "" |
| `ChecklistBuilderV4f1.DefaultMetaOtherFallbacks` | Root/Chk_Lst/src/checklist_builder_v4f1.py:203-206 | the other missing keys take their defaults; the run label is the stem |
| `ChecklistBuilderV4f1.Build` | Root/Chk_Lst/src/checklist_builder_v4f1.py:220-229 | the page is the template filled with the unique, sorted steps and the default meta |
| `ChecklistBuilderV4fV1a.StrippedCommandShape` | Root/Chk_Lst/src/checklist_builder_v4f_v1a.py:81-88 | the command is stripped, names `[Program]`/`[Variants]` when given, and is empty exactly when no part is non-blank |
| `ChecklistBuilderV4fV1a.LabelInCommand` | Root/Chk_Lst/src/checklist_builder_v4f_v1a.py:88 | a labelled part survives the filter and shows in the joined command |
| `ChecklistBuilderV4fV1a.ProgramInCommand` | Root/Chk_Lst/src/checklist_builder_v4f_v1a.py:84-85 | a given Program cell shows as `[Program]` |
| `ChecklistBuilderV4fV1a.VariantsInCommand` | Root/Chk_Lst/src/checklist_builder_v4f_v1a.py:86-87 | a given Variants cell shows as `[Variants]` |
| `ChecklistBuilderV4fV1a.CommandAgreesWithBase` | Root/Chk_Lst/src/checklist_builder_v4f_v1a.py:81-88 | with no blank command and already-stripped Program/Variants, the command equals the one in `checklist_builder.py` |
| `ChecklistBuilderV4fV1a.StepOfMatchesBase` | Root/Chk_Lst/src/checklist_builder_v4f_v1a.py:71-107 | the step differs from `checklist_builder.py` in the command only |
| `ChecklistBuilderV4fV1a.LoadSteps` | Root/Chk_Lst/src/checklist_builder_v4f_v1a.py:48-110 | the steps are the rows' steps, sorted by order, as a permutation |
| `ChecklistBuilderV4fV1a.DefaultMetaKeys` | Root/Chk_Lst/src/checklist_builder_v4f_v1a.py:146-155 | exactly the eight placeholder keys, in order |
| `ChecklistBuilderV4fV1a.DefaultMetaTitleFallbacks` | Root/Chk_Lst/src/checklist_builder_v4f_v1a.py:135-139 | missing title keys: "Checklist", the visible title falls back to the title, repo "/workspaces/EdxBuild", entity "" |
| `ChecklistBuilderV4fV1a.DefaultMetaOtherFallbacks` | Root/Chk_Lst/src/checklist_builder_v4f_v1a.py:140-144 | the image folder and web root default to "", the run label to the stem |
| `ChecklistBuilderV4fV1a.InjectStepsFails` | Root/Chk_Lst/src/checklist_builder_v4f_v1a.py:182-194 | the build stops exactly when the template has neither the placeholder nor a steps block |
| `ChecklistBuilderV4fV1a.InjectStepsAtPlaceholder` | Root/Chk_Lst/src/checklist_builder_v4f_v1a.py:184-185 | with the placeholder, the JSON stands at every occurrence, the text between kept |
| `ChecklistBuilderV4fV1a.InjectStepsIntoBlock` | Root/Chk_Lst/src/checklist_builder_v4f_v1a.py:187-191 | the corrected reading (see Findings): without it, the first block's bracketed value (ending before `;`) becomes the JSON taken literally, everything else kept, no earlier block |
| `ChecklistBuilderV4fV1a.PatchTitleKeepsTags` | Root/Chk_Lst/src/checklist_builder_v4f_v1a.py:158-164 | the corrected reading (see Findings): without the placeholder the text between the first `<title>` and `</title>` becomes the title, taken literally, and both tags stay; no element, no change |
| `ChecklistBuilderV4fV1a.PatchHeaderTitleKeepsTags` | Root/Chk_Lst/src/checklist_builder_v4f_v1a.py:167-179 | the corrected reading (see Findings): likewise for the `headerTitle` div, the visible title taken literally, its opening tag and `</div>` stay |
| `ChecklistBuilderV4fV1a.ApplyTemplate` | Root/Chk_Lst/src/checklist_builder_v4f_v1a.py:197-213 | steps, title, visible title, then each placeholder still present, in dict order |
| `ChecklistBuilderV4fV1a.Build` | Root/Chk_Lst/src/checklist_builder_v4f_v1a.py:197-213 | the page, or the error, for the sorted steps and the default meta |
| `ChecklistBuilderV4fV1a.InjectStepsAsWrittenAgrees` | Root/Chk_Lst/src/checklist_builder_v4f_v1a.py:191 | JSON without a backslash or leading digit goes in the same as written and as intended |
| `ChecklistBuilderV4fV1a.PatchTitleAsWrittenAgrees` | Root/Chk_Lst/src/checklist_builder_v4f_v1a.py:164 | a title without a backslash or leading digit goes in the same as written and as intended |
| `ChecklistBuilderV4fV1a.PatchTitleAsWrittenRejectsDigit` | Root/Chk_Lst/src/checklist_builder_v4f_v1a.py:164 | the title "5" makes `\15` a bad group reference: the build stops |
| `ChecklistBuilderV4fV1a.PatchTitleAsWrittenLosesTag` | Root/Chk_Lst/src/checklist_builder_v4f_v1a.py:164 | the title "2024" reads as octal `\120` = `P`: the `<title>` tag is lost and "P24" is written |
| `ChecklistBuilderV4fV1a.PatchHeaderTitleAsWrittenAgrees` | Root/Chk_Lst/src/checklist_builder_v4f_v1a.py:167-179 | a visible title without a backslash or leading digit goes in the same as written and as intended |
| `ChecklistBuilderV4fV1a.PatchHeaderTitleAsWrittenLosesTag` | Root/Chk_Lst/src/checklist_builder_v4f_v1a.py:173-179 | the visible title "2024" reads as octal `\120` = `P`: the opening `<div ...>` tag is lost and "P24" is written |
| `ChecklistBuilderV4fV1a.PatchHeaderTitleAsWrittenRejectsDigit` | Root/Chk_Lst/src/checklist_builder_v4f_v1a.py:173-179 | the visible title "5" makes `\15` a bad group reference: the build stops |
| `ChecklistBuilderV4fV1a.PatchHeaderTitleAsWrittenRejectsBackslash` | Root/Chk_Lst/src/checklist_builder_v4f_v1a.py:173-179 | the visible title `C:\Users` holds the bad escape `\U`: the build stops, where the literal patch writes the path |
| `RegexTemplate.BadEscapeRejected` | Root/Chk_Lst/src/checklist_builder_v4f_v1a.py:173-179 | a backslash before an ASCII letter that is no known escape makes the template `\1{text}\3` fail to parse |
| `ChecklistBuilderV4fV1a.OctalTitleTemplate` | Root/Chk_Lst/src/checklist_builder_v4f_v1a.py:164 | the template `\12024\3` parses to the literal `P24` then group 3 |
| `ChecklistBuilderV4fV1a.InjectStepsAsWrittenUnescapes` | Root/Chk_Lst/src/checklist_builder_v4f_v1a.py:191 | JSON holding `\n` is written with a real line break, unlike the literal JSON |
| `ChecklistBuilderV4fV1a.NewlineStepsSub` | Root/Chk_Lst/src/checklist_builder_v4f_v1a.py:191 | the substitution with that JSON puts the unescaped text into the block |
| `ChecklistBuilderV4fV1a.NewlineStepsTemplate` | Root/Chk_Lst/src/checklist_builder_v4f_v1a.py:191 | the template `\1["\n"]\3` parses to group 1, the unescaped literal, group 3 |
| `ChecklistBuilderV4fV1a.NewlineStepsTemplateTail` | Root/Chk_Lst/src/checklist_builder_v4f_v1a.py:191 | the part after `\1` parses to the literal with a real line break, then group 3 |
| `Patterns.SkipSpaces` | Root/Chk_Lst/src/checklist_builder_v4f_v1a.py:189 | `\s*` consumes exactly the spaces from the position on |
| `Patterns.SemicolonAfter` | Root/Chk_Lst/src/checklist_builder_v4f_v1a.py:189 | `\s*;` finds a `;` after spaces only |
| `Patterns.ClosingFrom` | Root/Chk_Lst/src/checklist_builder_v4f_v1a.py:189 | the lazy body stops at the first closing bracket followed by `\s*;` |
| `Patterns.LetPrefixEnd` | Root/Chk_Lst/src/checklist_builder_v4f_v1a.py:189 | `let\s+NAME\s*=\s*` matches only where `let` stands, and ends past it |
| `Patterns.AssignmentAt` | Root/Chk_Lst/src/checklist_builder_v5.py:297-298 | a match starts at `let`, its value runs from the opening to the closing bracket, and it ends at `;` |
| `Patterns.TitleAt` | Root/Chk_Lst/src/checklist_builder_v4f_v1a.py:164 | `<title>` at the start, ignoring case; the value ends at the first `</title>` |
| `Patterns.HeaderTitleDivAt` | Root/Chk_Lst/src/checklist_builder_v4f_v1a.py:173-174 | `<div` at the start, the opening tag ends at its `>`, the value ends at the next `</div>` |
| `Patterns.MatchAt` | Root/Chk_Lst/src/checklist_builder_v5.py:297-298 | a match is well formed; an assignment match is bracketed and ends at `;` |
| `Patterns.FirstMatch` | Root/Chk_Lst/src/checklist_builder_v5.py:301-304 | the search finds a match at or after its start |
| `Patterns.FirstMatchIsLeftmost` | Root/Chk_Lst/src/checklist_builder_v5.py:309-310 | the match found is the leftmost one |
| `Patterns.ReplaceValue` | Root/Chk_Lst/src/checklist_builder_v4f_v1a.py:164 | no match, no change |
| `Patterns.ReplaceValueKeepsOutside` | Root/Chk_Lst/src/checklist_builder_v4f_v1a.py:191 | only the value of the first match is replaced; both sides are kept |
| `Patterns.ReplaceTail` | Root/Chk_Lst/src/checklist_builder_v5.py:309-310 | no match, no change |
| `Patterns.ReplaceTailKeepsOutside` | Root/Chk_Lst/src/checklist_builder_v5.py:309-310 | the text before the value is kept and the text after the match's `;` follows the new text |
| `RegexTemplate.ParseFrom` | Root/Chk_Lst/src/checklist_builder_v4f_v1a.py:164 | every group a parsed template references exists |
| `RegexTemplate.ParseLiteralRun` | Root/Chk_Lst/src/checklist_builder_v4f_v1a.py:164 | a run without backslash is read as literal characters |
| `RegexTemplate.ParseOctalEscape` | Root/Chk_Lst/src/checklist_builder_v4f_v1a.py:164 | three octal digits after `\` are one character |
| `RegexTemplate.ParseOneDigitGroup` | Root/Chk_Lst/src/checklist_builder_v4f_v1a.py:191 | a digit after `\` not followed by a digit is a group reference |
| `RegexTemplate.ParsePlainValue` | Root/Chk_Lst/src/checklist_builder_v4f_v1a.py:191 | `\1` + text + `\3`, for text without backslash or leading digit, parses to group 1, the text, group 3 |
| `RegexTemplate.SubValueAgrees` | Root/Chk_Lst/src/checklist_builder_v4f_v1a.py:164 | then `re.sub` replaces only the value, as the literal splice does |
| `RegexTemplate.SubParsedDropsPrefix` | Root/Chk_Lst/src/checklist_builder_v4f_v1a.py:164 | a template without group 1 drops the text matched by the first group |
| `ChecklistBuilderPrev.HeaderDistinct` | Root/Chk_Lst/src/Prev/checklist_builder_251114_1609.py:30-45 | the header dict never holds a key twice, after the rows and after the `setdefault` calls |
| `ChecklistBuilderPrev.CollectHeaderRows` | Root/Chk_Lst/src/Prev/checklist_builder_251114_1609.py:35-39 | the row loop computes the specification's dict |
| `ChecklistBuilderPrev.SetDefaults` | Root/Chk_Lst/src/Prev/checklist_builder_251114_1609.py:42-43 | the `setdefault` loop computes the specification's dict |
| `ChecklistBuilderPrev.LoadHeader` | Root/Chk_Lst/src/Prev/checklist_builder_251114_1609.py:30-45 | `load_header` is the rows, then the defaults |
| `ChecklistBuilderPrev.WithDefaultsGet` | Root/Chk_Lst/src/Prev/checklist_builder_251114_1609.py:42-43 | a `setdefault` fills a key only where it is missing |
| `ChecklistBuilderPrev.LoadHeaderContents` | Root/Chk_Lst/src/Prev/checklist_builder_251114_1609.py:30-45 | each field holds its last value; a missing required field holds "" |
| `ChecklistBuilderPrev.LoadHeaderHasRequired` | Root/Chk_Lst/src/Prev/checklist_builder_251114_1609.py:16-24 | every required field is present, whatever the sheet holds |
| `ChecklistBuilderPrev.BlankFieldCellStoredAsNan` | Root/Chk_Lst/src/Prev/checklist_builder_251114_1609.py:36-39 | an empty Field cell is stored under the key "nan" |
| `ChecklistBuilderPrev.WithStepOrder` | Root/Chk_Lst/src/Prev/checklist_builder_251114_1609.py:57-58 | adding the column keeps every row |
| `ChecklistBuilderPrev.StepOrderColumn` | Root/Chk_Lst/src/Prev/checklist_builder_251114_1609.py:57-58 | a StepOrder column exists afterwards; when it was missing it is the new last column |
| `ChecklistBuilderPrev.NumOrderIsStrictTotalOrder` | Root/Chk_Lst/src/Prev/checklist_builder_251114_1609.py:62-63 | the numeric sort order, missing last, is a strict total order |
| `ChecklistBuilderPrev.TextOrderIsStrictTotalOrder` | Root/Chk_Lst/src/Prev/checklist_builder_251114_1609.py:66 | the string sort order, missing last, is a strict total order |
| `ChecklistBuilderPrev.SortedRowsSorts` | Root/Chk_Lst/src/Prev/checklist_builder_251114_1609.py:60-66 | numeric when every cell converts, else by text; a permutation and sorted; ties keep their sheet order, which the text branch's `kind="stable"` promises (for the numeric branch see Left out) |
| `ChecklistBuilderPrev.ReminderEmptyIff` | Root/Chk_Lst/src/Prev/checklist_builder_251114_1609.py:86-100 | the reminder is empty exactly when all five groups of fields are empty |
| `ChecklistBuilderPrev.StepsOf` | Root/Chk_Lst/src/Prev/checklist_builder_251114_1609.py:73-120 | one step per sorted row |
| `ChecklistBuilderPrev.BuildSteps` | Root/Chk_Lst/src/Prev/checklist_builder_251114_1609.py:73-122 | the step loop computes the specification's steps |
| `ChecklistBuilderPrev.LoadSteps` | Root/Chk_Lst/src/Prev/checklist_builder_251114_1609.py:48-122 | `load_steps`, with the string sort's error when StepOrder mixes numbers and text |
| `ChecklistBuilderPrev.StepsOfIds` | Root/Chk_Lst/src/Prev/checklist_builder_251114_1609.py:103 | an id is "step" and the order text, else "step" and the 1-based position |
| `ChecklistBuilderPrev.StepsKeepEveryRow` | Root/Chk_Lst/src/Prev/checklist_builder_251114_1609.py:53-122 | every row becomes a step; none is skipped |
| `ChecklistBuilderPrev.StepsWithoutOrderColumn` | Root/Chk_Lst/src/Prev/checklist_builder_251114_1609.py:57-58 | without StepOrder the rows keep their sheet order, numbered 1..n |
| `ChecklistBuilderPrev.SafeJsonHasNoScriptClose` | Root/Chk_Lst/src/Prev/checklist_builder_251114_1609.py:131 | the escaped JSON holds no `</script>` |
| `ChecklistBuilderPrev.EmbedStepsJsonKeepsText` | Root/Chk_Lst/src/Prev/checklist_builder_251114_1609.py:125-132 | the escaped JSON stands at each placeholder; the text between is kept |
| `ChecklistBuilderPrev.HeaderPairs` | Root/Chk_Lst/src/Prev/checklist_builder_251114_1609.py:139-147 | seven placeholders, `{{FIELD}}` for each required field in order |
| `ChecklistBuilderPrev.EmbedHeaderPlaceholders` | Root/Chk_Lst/src/Prev/checklist_builder_251114_1609.py:135-152 | the loop replaces the seven placeholders in order |
| `ChecklistBuilderPrev.HeaderPlaceholdersNeedBraces` | Root/Chk_Lst/src/Prev/checklist_builder_251114_1609.py:149-150 | a template without `{{` comes back unchanged |
| `ChecklistBuilderPrev.Underscored` | Root/Chk_Lst/src/Prev/checklist_builder_251114_1609.py:160 | replacing spaces keeps the length |
| `ChecklistBuilderPrev.KeepSlugChars` | Root/Chk_Lst/src/Prev/checklist_builder_251114_1609.py:161 | what is kept is only letters, digits, `_` and `-` |
| `ChecklistBuilderPrev.Slugify` | Root/Chk_Lst/src/Prev/checklist_builder_251114_1609.py:155-162 | never empty; made of letters, digits, `_` and `-` only |
| `ChecklistBuilderPrev.SlugifyIdempotent` | Root/Chk_Lst/src/Prev/checklist_builder_251114_1609.py:155-162 | slugifying a slug changes nothing |
| `ChecklistBuilderPrev.SlugifySpacesToUnderscores` | Root/Chk_Lst/src/Prev/checklist_builder_251114_1609.py:160-162 | text of slug characters and inner spaces keeps every character, spaces as `_` |
| `ChecklistBuilderPrev.OutputPathStaysInDefaultDir` | Root/Chk_Lst/src/Prev/checklist_builder_251114_1609.py:177-195 | without an explicit path the file lands directly in the default folder (no `/` in its name), ends in `_Checklist.html`, and has a non-empty slug before that when the SOP default or the visible title is given |
| `ChecklistBuilderPrev.CheckListFileName` | Root/Chk_Lst/src/Prev/checklist_builder_251114_1609.py:193-195 | the stem fallback `<stem>_Checklist.html` has no `/` and ends in `_Checklist.html` |
| `ChecklistBuilderV5.LowIdempotent` | Root/Chk_Lst/src/checklist_builder_v5.py:37-41 | `low` of a `low` result changes nothing: the text is already stripped and lower-case |
| `ChecklistBuilderV5.BoolishMeaning` | Root/Chk_Lst/src/checklist_builder_v5.py:43-49 | case and surrounding spaces do not matter; no word is both a yes-word and a no-word, so a yes-word gives true and a no-word (or blank) false whatever the default; the result differs from the default only for a word of the other kind |
| `ChecklistBuilderV5.FindSheetIndex` | Root/Chk_Lst/src/checklist_builder_v5.py:56-61 | the first candidate present ignoring case; none when no candidate matches any sheet |
| `ChecklistBuilderV5.LastNamed` | Root/Chk_Lst/src/checklist_builder_v5.py:57 | the lower-case lookup finds the last sheet with that lower-case name |
| `ChecklistBuilderV5.CanonicalFindsFirstListing` | Root/Chk_Lst/src/checklist_builder_v5.py:79-84 | a spelling resolves to the first canonical name listing it; none when none does |
| `ChecklistBuilderV5.Hits` | Root/Chk_Lst/src/checklist_builder_v5.py:139-142 | at most one hit per cell |
| `ChecklistBuilderV5.BestIndexIsFirstMax` | Root/Chk_Lst/src/checklist_builder_v5.py:143-145 | the scan keeps the first index with the largest positive count |
| `ChecklistBuilderV5.HeaderRowIsFirstBest` | Root/Chk_Lst/src/checklist_builder_v5.py:219-236 | the header row has at least three hits, no scanned row has more, and every earlier row has fewer; none is found only when every scanned row has fewer than three |
| `ChecklistBuilderV5.CountHits` | Root/Chk_Lst/src/checklist_builder_v5.py:226-230 | the inner loop counts the hits |
| `ChecklistBuilderV5.FindHeaderRow` | Root/Chk_Lst/src/checklist_builder_v5.py:219-236 | the scan computes the specification's header row |
| `ChecklistBuilderV5.LastColumnNamedIsLast` | Root/Chk_Lst/src/checklist_builder_v5.py:100-104 | the Key/Value column found is the last heading named so |
| `ChecklistBuilderV5.ReadHeaderKeyValue` | Root/Chk_Lst/src/checklist_builder_v5.py:86-122 | the reading loop computes the specification's dict |
| `ChecklistBuilderV5.KeyValuesWellFormed` | Root/Chk_Lst/src/checklist_builder_v5.py:109-120 | the keys read are distinct and never empty |
| `ChecklistBuilderV5.KeyValuesStopAfterFiveBlankKeys` | Root/Chk_Lst/src/checklist_builder_v5.py:113-117 | rows after five consecutive blank keys are never read |
| `ChecklistBuilderV5.KeyValuesLastRowWins` | Root/Chk_Lst/src/checklist_builder_v5.py:119-120 | each key holds the value of its last row |
| `ChecklistBuilderV5.ReadHeaderRowValues` | Root/Chk_Lst/src/checklist_builder_v5.py:124-161 | the two loops compute the specification's dict |
| `ChecklistBuilderV5.CollectFieldValues` | Root/Chk_Lst/src/checklist_builder_v5.py:153-159 | the field loop computes the specification's entries |
| `ChecklistBuilderV5.FieldValuesEntries` | Root/Chk_Lst/src/checklist_builder_v5.py:154-159 | every entry comes from a column whose name resolves and whose value is not blank |
| `ChecklistBuilderV5.FieldValuesLastColumnWins` | Root/Chk_Lst/src/checklist_builder_v5.py:158-159 | a canonical key holds the value below the last column resolving to it |
| `ChecklistBuilderV5.FieldValuesAbsent` | Root/Chk_Lst/src/checklist_builder_v5.py:155-157 | a key no column contributes is absent |
| `ChecklistBuilderV5.BuildSopInfo` | Root/Chk_Lst/src/checklist_builder_v5.py:163-195 | the loops compute the specification's `sopInfo` |
| `ChecklistBuilderV5.NormalizedLastWins` | Root/Chk_Lst/src/checklist_builder_v5.py:182-189 | the last entry feeding a base key decides it |
| `ChecklistBuilderV5.SopInfoFromLastValues` | Root/Chk_Lst/src/checklist_builder_v5.py:191-195 | every base key is present in order and keeps its default unless a non-empty value feeds it |
| `ChecklistBuilderV5.UntargetedEntryIgnored` | Root/Chk_Lst/src/checklist_builder_v5.py:182-189 | an entry feeding no base key changes nothing |
| `ChecklistBuilderV5.BaseKeysResolveToThemselves` | Root/Chk_Lst/src/checklist_builder_v5.py:68-77 | every base key spelled literally resolves to itself |
| `ChecklistBuilderV5.MergeAsWrittenLetsKeyValuesWin` | Root/Chk_Lst/src/checklist_builder_v5.py:357-362 | the merge as written lets a key/value entry beat the row values |
| `ChecklistBuilderV5.DropSuperseded` | Root/Chk_Lst/src/checklist_builder_v5.py:357 | exactly the key/value entries the row values do not supersede |
| `ChecklistBuilderV5.MergePreferRowsLetsRowValuesWin` | Root/Chk_Lst/src/checklist_builder_v5.py:357 | with the corrected merge a non-blank row value is what `sopInfo` holds |
| `ChecklistBuilderV5.RowValuesShape` | Root/Chk_Lst/src/checklist_builder_v5.py:150-161 | row values have base keys and stripped non-blank values |
| `ChecklistBuilderV5.ReadSopInfo` | Root/Chk_Lst/src/checklist_builder_v5.py:354-362 | the header sheet read both ways, merged, made into `sopInfo` |
| `ChecklistBuilderV5.HeaderSopInfoPrefersRowValues` | Root/Chk_Lst/src/checklist_builder_v5.py:353-362 | a row value for a base key is what `sopInfo` holds |
| `ChecklistBuilderV5.ColumnMapFirstCell` | Root/Chk_Lst/src/checklist_builder_v5.py:248-252 | a canonical column maps to the first header cell resolving to it |
| `ChecklistBuilderV5.RowStepDefaults` | Root/Chk_Lst/src/checklist_builder_v5.py:271-286 | a step always has an id and title; a missing order is one past the steps read |
| `ChecklistBuilderV5.ReadSteps` | Root/Chk_Lst/src/checklist_builder_v5.py:238-290 | `read_steps` computes the specification's steps |
| `ChecklistBuilderV5.CollectSteps` | Root/Chk_Lst/src/checklist_builder_v5.py:257-287 | the row loop computes the specification's steps |
| `ChecklistBuilderV5.CollectColumnMap` | Root/Chk_Lst/src/checklist_builder_v5.py:248-252 | the `col_map` loop computes the specification's map |
| `ChecklistBuilderV5.StepsFromAppends` | Root/Chk_Lst/src/checklist_builder_v5.py:257-287 | every new step comes from a non-blank row, built from the count before it |
| `ChecklistBuilderV5.StepsAreNamed` | Root/Chk_Lst/src/checklist_builder_v5.py:278-280 | every step read has an id and a title |
| `ChecklistBuilderV5.StepsSortedStably` | Root/Chk_Lst/src/checklist_builder_v5.py:289 | the steps are sorted by order, a permutation, stable |
| `ChecklistBuilderV5.StepsStopAfterTenBlankRows` | Root/Chk_Lst/src/checklist_builder_v5.py:258-262 | rows after ten consecutive blank rows are never read |
| `ChecklistBuilderV5.Inject` | Root/Chk_Lst/src/checklist_builder_v5.py:300-312 | the error exactly when a block is missing, the sopInfo one reported first |
| `ChecklistBuilderV5.InjectRewritesSopInfoFirst` | Root/Chk_Lst/src/checklist_builder_v5.py:309-310 | the sopInfo block is rewritten first, the text around it kept, then the steps block |
| `OrderedDict.Put` | Root/Chk_Lst/src/checklist_builder_v5.py:120 | the key gets the value; other keys are unchanged |
| `OrderedDict.PutKeys` | Root/Chk_Lst/src/checklist_builder_v5.py:120 | an existing key keeps its place; a new key goes last |
| `OrderedDict.Update` | Root/Chk_Lst/src/checklist_builder_v5.py:359-360 | `update` gives the other dict's value where it has one, else the first's |
| `StableSort.SortByStable` | Root/Chk_Lst/src/checklist_builder.py:151 | equal keys keep their relative order |
| `StableSort.SortBySorted` | Root/Chk_Lst/src/checklist_builder.py:151 | the result is sorted |
| `Sheet.NormTrimmed` | Root/Chk_Lst/src/checklist_builder_v5.py:38-39 | `norm` output is already stripped |

## Left out

- `json.dumps`: the JSON text is a parameter, or a function of the steps that the caller supplies. Escaping, indentation and key order are not modelled.
- The `runs` list of each step is always empty and is not modelled.
- Reading the workbook (openpyxl, `pd.ExcelFile`, `read_excel`) is not modelled. A sheet is given as rows of cells. The choice of the Steps sheet (`"Steps"` or the first sheet) is left to the caller.
- Cells hold text, whole numbers or nothing. Floats and dates are not modelled, so `int()` of a float cell and `str()` of a float are not modelled.
- `pd.to_numeric` is modelled on whole-number cells and integer text only.
- `strip`, `lower`, `isalnum` and `\w` are modelled over ASCII only. So is the case-insensitive flag `re.I`.
- Unicode whitespace other than ASCII is not modelled.
- Named group references (`\g<name>`) are read as errors. Python's version-specific rules for group names are not modelled.
- The steps pattern's `\s*` inside the brackets in `checklist_builder_v5.py` is absorbed by the lazy body.
- `main`, argument parsing, output directories (`mkdir`), file reads and writes, printing, and the clock (`NY_TZ`) are not modelled.
- `derive_default_out_path` and `init_template` are not modelled: they only build paths from the clock and copy files.
- `raise SystemExit` in `_inject_steps` and `RuntimeError` in `inject` are modelled as an `Err` result.
- `col_lookup` returns a column label, and the source tests it with `if col`, so a column whose label is an empty string counts as not found. The model treats every found column as found. pandas gives an unnamed header cell a non-empty label (`Unnamed: n`).
- `ChecklistBuilderPrev.LoadSteps`: the sort with a string fallback is modelled for StepOrder columns that are all numbers or all text. A mix makes pandas raise, and that is modelled as an error.
- `ChecklistBuilderPrev.LoadSteps`: the numeric sort (line 63) uses pandas' default `quicksort`, which does not promise to keep ties in order; only the text fallback passes `kind="stable"`. The model keeps ties in sheet order in both branches, so for repeated StepOrder values the source's step order may differ. `ChecklistBuilderPrev.SortedRowsSorts` states the same stable order.
- `ChecklistBuilderPrev.StepsOfIds`: pandas reads a whole-number column with a blank cell as floats, so its numbers print as `3.0` (`step3.0` at line 103). The model keeps such cells as whole numbers and prints `3`: its frames assume whole-number columns without gaps.
- `ChecklistBuilderBase.StepOfFields`: for the same reason, `str(row[col_step_id])` (`checklist_builder.py` line 108) and `f"Phase: {row[col_phase]}"` (lines 124-136) print `3` in the model where pandas prints `3.0` for a whole-number column with a gap. The v4f1 and v4f_v1a copies of these lines share the gap.
- `Strings.PyInt`: reads an optional sign and ASCII digits after stripping. Python's `int()` also accepts `_` between digits (`int("1_0")` is 10) and non-ASCII digits; the model reads such text as not a number. This reaches the order read from a text order cell (`Sheet.CellInt`, and v5's `RowStep`).
- `ChecklistBuilderV5.ReadSopInfo`: uses the corrected merge (see Findings). The merge as written is `ChecklistBuilderV5.MergeAsWritten`.
- `ChecklistBuilderV4fV1a.ApplyTemplate`: patches the title and the visible title with the literal values and splices the steps JSON literally into the `let steps = [...]` block, the corrected reading of all three. The `re.sub` reading of each is modelled separately, as `PatchTitleAsWritten`, `PatchHeaderTitleAsWritten` and `InjectStepsAsWritten` (see Findings, rows for py:164, py:173-179 and py:191).
- `ChecklistBuilderV4fV1a.PatchHeaderTitleKeepsTags`: is proved of the literal patch. As written, a visible title with a backslash or a leading digit is read as a template; `PatchHeaderTitleAsWritten` and its lemmas show where the two differ (see Findings).
- `ChecklistBuilderV4fV1a.Build`: renders with the literal title and visible title patches and the literal steps-JSON splice (`InjectSteps`). As written the steps JSON goes through the `re.sub` template `\1{steps_json}\3`, so a `\n` escape in a step text becomes a real line break; that reading is `InjectStepsAsWritten` (see Findings, row for py:191). The visible title defaults to the title, so the title finding reaches the header div too.

## Findings

| source | as written | input that shows it | evidently intended | confidence | as-written member | corrected member |
|---|---|---|---|---|---|---|
| Root/Chk_Lst/src/checklist_builder_v5.py:357-362 | `header_data.update(kv)` then `update(rv)`; `build_sopinfo` then reads the entries in insertion order | a key/value sheet with `id = A`, then `SOP ID = B`; the row values give `id = C` | the comment says row values win, so `sopInfo.id` should be `C`; as written it is `B` | not executed | `ChecklistBuilderV5.MergeAsWrittenLetsKeyValuesWin` | `ChecklistBuilderV5.MergePreferRowsLetsRowValuesWin` |
| Root/Chk_Lst/src/checklist_builder_v4f_v1a.py:191 | the steps JSON is spliced into an `re.sub` template `\1{json}\3` | a step text with a line break, which `json.dumps` writes as `\n` | the JSON goes in literally; as written `re.sub` turns `\n` into a real line break inside a JavaScript string | not executed | `ChecklistBuilderV4fV1a.InjectStepsAsWrittenUnescapes` | `ChecklistBuilderV4fV1a.InjectStepsIntoBlock` |
| Root/Chk_Lst/src/checklist_builder_v4f_v1a.py:164 | the title is spliced into the template `\1{title}\3` | the title `2024` (`\12024` reads as octal `\120`, i.e. `P`); the title `5` (`\15` is group 15) | the title goes in literally between the tags; as written `<title>` is lost and `P24` is written, or the build stops with `re.error` | not executed | `ChecklistBuilderV4fV1a.PatchTitleAsWrittenLosesTag` | `ChecklistBuilderV4fV1a.PatchTitleKeepsTags` |
| Root/Chk_Lst/src/checklist_builder_v4f_v1a.py:173-179 | the visible title is spliced into the template `\1{visible_text}\3` | the visible title `2024` (`\12024` reads as octal `\120`, i.e. `P`); `5` (`\15` is group 15); `C:\Users` (`\U` is a bad escape) | the text goes in literally inside the div; as written the opening `<div id="headerTitle">` is lost and `P24` is written, or the build stops with `re.error` | not executed | `ChecklistBuilderV4fV1a.PatchHeaderTitleAsWrittenLosesTag` | `ChecklistBuilderV4fV1a.PatchHeaderTitleKeepsTags` |
