# Story to Jasmine formatter, modelled in Dafny

The Sublime Text plugin turns a PivotalTracker user story written in
Given/And/When/Then style into a Jasmine test skeleton. The core is a small
formatter object that keeps two buffers, splits the story into rows, sends
each row to a *describe* list or an *it* list by its leading keyword,
renders the it rows as one indented `it(...)` statement each, folds the
describe rows from the innermost to the outermost into nested
`describe(...)` blocks around a `%s` hole, and puts the it block into that
hole with Python's `%` operator. The repository has two copies of the
formatter. `StoryParse` in `story_to_jasmine.py` is the live one: its
keywords are lists of synonyms, checked after `strip()` and followed by a
space, and it drops one leading `#` from the story id. `StoryParser` in
`plugin.py` is the older one: it uses one keyword string per category, tests
it as a plain prefix, and passes the id through unchanged.

The Dafny modules follow that structure:

- `PyText` (pytext.dfy) models the Python string operations the formatter
  uses: `' ' * n`, `strip()`, `startswith`, `split('\n')`, and `%` applied to
  a format string whose only conversions are `%s`. Errors are a `Result`
  over the Python exceptions that can reach the caller.
- `Templates` (templates.dfy) models `str.format` on a template that is
  given already parsed into literal pieces and positional fields. A field
  past the last argument raises IndexError. Which argument lists raise
  ValueError is a predicate carried by the template.
- `Classifier` (classifier.dfy) models the Given/And/When/Then bucketing
  loop the two copies share, together with a stateless reference for it.
- `Render` (render.dfy) models the describe fold, the it block of each copy,
  and the final `%`.
- `StoryToJasmine` (story_to_jasmine.dfy) is the class `StoryParse`. Its
  methods are loops over the `seq<string>` buffer fields, and each is proved
  equal to a specification function.
- `Plugin` (plugin.dfy) is the class `StoryParser`, modelled the same way.
- `Scenarios` (scenarios.dfy) works through concrete stories with the
  English keywords and the Jasmine templates.

The model follows the code as written, also where the code departs from the
behaviour it evidently intends, such as the reset at
story_to_jasmine.py:142-143 and the skip at story_to_jasmine.py:193-194:

- An empty story id is not normalised to an empty id. `story_id[0]` raises
  IndexError (story_to_jasmine.py:183), and `StoryToJasmine.ItBlock` returns
  `Err(IndexError)`.
- A story with no describe row does not yield an empty shell. When its it
  block succeeds (the it block is built first, at story_to_jasmine.py:138),
  `'' % its` raises TypeError (story_to_jasmine.py:141), as
  `StoryToJasmine.ParseNeedsDescribeRow` states.
- An empty keyword is not treated as never matching. In `plugin.py` an unset
  preference reads as `''`, which every row starts with
  (`Plugin.UnsetGivenTakesAll`). In `story_to_jasmine.py` an empty token
  becomes the prefix `' '`.
- The buffers are not reset on every call. They are emptied only when
  `parse` returns normally (story_to_jasmine.py:142-143), so rows leak from a
  failed call into the next one (first finding below).

## Model

| member | source | states |
|---|---|---|
| PyText.Spaces | story_to_jasmine.py:161-162 | `' ' * n` has length n and holds only spaces |
| PyText.TrimLeftSpec | story_to_jasmine.py:123 | `lstrip` keeps a suffix that does not start with whitespace, and everything it removes is whitespace |
| PyText.TrimRightSpec | story_to_jasmine.py:123 | `rstrip` keeps a prefix that does not end with whitespace, and everything it removes is whitespace |
| PyText.Split | story_to_jasmine.py:120 | `split('\n')` gives at least one piece, no piece holds a newline, and joining the pieces back gives the story text |
| PyText.SplitJoin | story_to_jasmine.py:120 | splitting the join of newline-free pieces returns those pieces, so the pieces are determined by the text |
| PyText.Interpolate | story_to_jasmine.py:141 | `desc % its` succeeds exactly when `desc` holds one `%s`, and raises TypeError otherwise |
| PyText.InterpolateHole | story_to_jasmine.py:141 | with no `%` around the hole, `%` replaces the one `%s` and keeps the text on both sides verbatim |
| Templates.Subst | story_to_jasmine.py:157-159 | substitution succeeds exactly when every field names a given argument, and raises IndexError otherwise |
| Templates.Format | story_to_jasmine.py:189-192 | `format` succeeds exactly when the template accepts the arguments and every field is in range; it raises only ValueError or IndexError |
| Templates.SubstAround | story_to_jasmine.py:164-166 | a template that uses `{1}` once puts the inner block between a prefix and a suffix that depend only on the row |
| Templates.SubstHoles | story_to_jasmine.py:164-166 | with `%`-free literals and row, the result holds the inner block's `%` signs once per use of `{1}` |
| Templates.SubstHolesOnly | story_to_jasmine.py:157-159 | an inner block whose `%` signs all start `%s` gives a result where the same holds |
| Classifier.RowLandsOnce | story_to_jasmine.py:124-136 | a row goes to exactly one list when it matches a keyword, and to no list otherwise |
| Classifier.ClassifyPrefix | story_to_jasmine.py:124-136 | after any prefix of rows, each list holds the rows routed to it in row order, and `found_when` holds exactly when a When row has been seen |
| Classifier.ClassifyIsReference | story_to_jasmine.py:124-136 | the loop over the whole story equals the stateless reference |
| Classifier.ClassifyCount | story_to_jasmine.py:124-136 | the describe rows, the it rows and the dropped rows add up to the number of rows |
| Classifier.ClassifyAllGiven | plugin.py:159-161 | when every row is a Given row, all rows go to the describe list, in order, and the it list stays empty |
| Classifier.ExtendSnoc | story_to_jasmine.py:124-136 | one more iteration on buffers that already held rows is the classification of one more row, appended after those rows |
| Classifier.StepShift | story_to_jasmine.py:126 | rows already in the buffers stay in front of the rows the loop appends |
| Render.NestErrPropagates | story_to_jasmine.py:154-167 | an exception raised at an inner level of the fold escapes unchanged from every outer level |
| Render.NestHolesOnly | story_to_jasmine.py:154-169 | every `%` in the describe skeleton starts a `%s` |
| Render.SkeletonHolesOnly | story_to_jasmine.py:146-169 | the result of `proccesing_describe_list` is a valid left operand of `%` with a string |
| Render.NestHoleCount | story_to_jasmine.py:154-169 | a skeleton of n rows holds u^n holes, where u is the number of times the template uses `{1}` |
| Render.WrapHoles | story_to_jasmine.py:161-163 | the newline and indentation around a nested block add no `%` |
| Render.NestFlat | story_to_jasmine.py:154-169 | with `{1}` used once, the skeleton is the rows' openings in row order, the hole, then their closings in reverse order |
| Render.OpensClosesClean | story_to_jasmine.py:154-169 | openings and closings built from `%`-free rows and literals hold no `%` |
| Render.ItTextKept | story_to_jasmine.py:181-195 | with no fatal row, the it block is a newline followed, in row order, by each row that formats, indented; rows that raise ValueError add nothing |
| Render.ItTextFails | story_to_jasmine.py:186-194 | the it block fails exactly when some row raises an exception other than ValueError |
| Render.ItTextSkips | story_to_jasmine.py:193-194 | a row that raises ValueError is skipped and the rows after it are still rendered |
| Render.ItTextErrPropagates | story_to_jasmine.py:186-192 | an exception from an early row escapes unchanged, whatever follows |
| Render.ItTextGrows | story_to_jasmine.py:181-195 | the text of any prefix of the rows is a prefix of the it block, and the block starts with a newline |
| Render.PluginItTextErrPropagates | plugin.py:203-208 | in the older copy, an exception from an early row escapes unchanged, whatever follows |
| Render.PluginItTextAgrees | plugin.py:198-209 | given the same template, id, indentation and body, the older copy's it loop and the live copy's return the same text when every row formats (the two copies themselves pass different bodies, and only the live one strips `#`) |
| Render.PluginItTextFails | plugin.py:203-208 | the older copy's it block fails exactly when some row does not format, and then always with NameError |
| Render.PluginItTextNewline | plugin.py:202 | the older copy's it block starts with a newline |
| Render.PluginItTextAborts | plugin.py:207 | as written, one row that does not format aborts the older copy's it block with NameError, whatever rows follow |
| Render.AssembleShape | story_to_jasmine.py:138-141 | with `{1}` used once, the output is the openings, the it block, then the closings |
| Render.AssembleTypeError | story_to_jasmine.py:141 | the final `%` succeeds exactly when there is a describe row and the template uses `{1}` once, and raises TypeError otherwise |
| StoryToJasmine.CheckMeansSomeToken | story_to_jasmine.py:122-123 | `check(row, data)` holds exactly when some token, stripped and followed by a space, starts the row |
| StoryToJasmine.CategoryOfFirstMatch | story_to_jasmine.py:124-136 | a row takes the first category, in the order Given, And, When, Then, whose tokens match it, and is dropped when none match |
| StoryToJasmine.StripHash | story_to_jasmine.py:183-184 | one leading `#` is removed, and any other id is kept unchanged |
| StoryToJasmine.StoryParse.constructor | story_to_jasmine.py:90-109 | a new parser has the given configuration and empty buffers |
| StoryToJasmine.StoryParse.Parse | story_to_jasmine.py:111-144 | the result is the shared classification of the story appended to the old buffers, then rendered; the buffers are emptied on success, and on an exception they keep the appended rows |
| StoryToJasmine.StoryParse.ParseIsolated | story_to_jasmine.py:111-144 | a parser that resets its buffers on every exit returns, for each call, a function of that call's story and id alone |
| StoryToJasmine.StoryParse.ClassifyRows | story_to_jasmine.py:120-136 | the loop appends to each buffer exactly the rows that the shared classification of the rows' categories sends there, in row order |
| StoryToJasmine.StoryParse.ProcessDescribeList | story_to_jasmine.py:146-169 | the fold from the last describe row to the first gives the describe skeleton, or the first exception `format` raises |
| StoryToJasmine.StoryParse.ProcessItList | story_to_jasmine.py:171-195 | the loop gives the it block for the buffered it rows, IndexError for an empty id, or the first exception other than ValueError |
| StoryToJasmine.ParseIgnoresHash | story_to_jasmine.py:183-184 | for a non-empty `n` that does not start with `#`, ids `#n` and `n` give the same output (for `n = ""` the id `#` renders, while `""` raises IndexError) |
| StoryToJasmine.ParseShape | story_to_jasmine.py:138-144 | a successful parse has at least one describe row, and its output is the openings, the it block (starting with a newline), then the closings |
| StoryToJasmine.ParseNeedsDescribeRow | story_to_jasmine.py:138-141 | a story with no describe row, whose it block succeeds, raises TypeError (the it block is built first, so an empty id raises IndexError instead) |
| Plugin.StoryParser.constructor | plugin.py:146-154 | a new parser has the given preferences and empty buffers |
| Plugin.StoryParser.Parser | plugin.py:156-178 | the result is the shared classification appended to the old buffers, then rendered; the buffers are emptied only on success |
| Plugin.StoryParser.ClassifyRows | plugin.py:157-171 | the loop appends to each buffer exactly the rows that the shared classification of the rows' categories sends there, in row order |
| Plugin.StoryParser.ProcessDescribeList | plugin.py:180-196 | the fold from the last describe row to the first gives the describe skeleton, or the first exception `format` raises |
| Plugin.StoryParser.ProcessItList | plugin.py:198-209 | the loop gives the older copy's it block, in which any exception from `format` becomes NameError |
| Plugin.UnsetGivenTakesAll | plugin.py:159-161 | with the Given preference unset (`''`), every row goes to the describe list and the it list stays empty |
| Plugin.ItBlockLines | plugin.py:198-209 | when every row formats, the it block is a newline followed by the rows formatted with the id as given and the body `{}`, each indented by twice the describe count |
| Plugin.ParserAbortsOnFormatError | plugin.py:203-208 | as written, one it row that does not format makes the whole call raise NameError |
| Plugin.FixedItBlockSkips | plugin.py:203-208 | with the handler corrected to `except ValueError as e`, a row that raises ValueError is dropped and the rows after it still render |
| Plugin.FixedItBlockAgrees | plugin.py:198-209 | the corrected handler gives the same it block as written when every row formats |
| Plugin.ParseShape | plugin.py:173-178 | a successful parse has at least one describe row, and its output is the openings, the it block, then the closings |
| Plugin.ParseNeedsDescribeRow | plugin.py:173-175 | a story with no describe row, whose it block succeeds, raises TypeError (the it block is built first, so an it row that does not format raises NameError instead) |
| Scenarios.CheckOne | story_to_jasmine.py:122-123 | a one-token keyword list matches exactly the rows that start with the token and a space |
| Scenarios.ItLine | story_to_jasmine.py:189-192 | the Jasmine it template renders `it('<row> #<id>', function() <body>);` |
| Scenarios.DescribeLine | story_to_jasmine.py:157-159 | the Jasmine describe template renders `describe('<row>', function() {<inner>});` |
| Scenarios.ThenOnlyStory | story_to_jasmine.py:138-141 | a story with only a Then row puts that row in the it list and raises TypeError |
| Scenarios.GivenOnlyStory | story_to_jasmine.py:138-144 | a story with only a Given row renders one describe block around a bare newline |
| Scenarios.GivenThenStory | story_to_jasmine.py:111-195 | the Given/Then story renders one describe block holding one it statement, indented two spaces, with the `#` dropped from the id |
| Scenarios.StaleRowsLeak | story_to_jasmine.py:141-143 | after a Then-only story fails, the next Given-only story on the same parser renders the stale Then row too, unlike a parser that resets on every exit |
| Scenarios.SkipsRejectedRow | story_to_jasmine.py:193-194 | an it row the template rejects with ValueError is skipped, and the describe block is still rendered |
| Scenarios.PluginAbortsOnRejectedRow | plugin.py:207 | in the older copy, the same rejected row makes the whole call raise NameError |

## Left out

- The PivotalTracker access service, the HTTP requests and JSON decoding,
  the story cache, the Sublime Text commands, `StoryToBDD`, `Singleton` and
  `PluginUtils` are left out. They are I/O or editor glue. The reuse of one
  `StoryParse` object across calls, which `StoryToBDD` causes, is modelled by
  calling `Parse` twice on one object.
- Settings are not read. The keyword lists, keyword strings and templates
  are constructor parameters (`Config`). Each keyword preference of the live
  copy is taken to be a list of strings, and each of the older copy a
  string.
- `str.format` is not parsed. A template is its sequence of literal pieces
  and positional fields, with `{{`/`}}` already unescaped. Format specs,
  conversions, nested fields, named fields (which raise KeyError, which the
  live copy's `except ValueError` does not catch) and attribute or index
  access are left out.
  Whether an argument list makes `format` raise ValueError is a predicate
  (`rejects`) carried by the template.
- Python's `%` operator is modelled only for format strings whose every `%`
  starts `%s`. `StoryParse.Parse` and `StoryParser.Parser` therefore require
  that no describe row and no literal of the describe template holds a `%`.
  With such a `%`, Python would raise ValueError or TypeError, or render
  `%%` as `%`; those paths are not modelled.
- `str(story_id)` is the identity, because ids are strings here.
- Character width and encoding are not modelled: strings are sequences of
  Unicode characters.
- The `print(e)` in the older copy's handler is left out. It can never run,
  because evaluating the handler raises NameError first.

## Findings

| source | as written | input that shows it | evidently intended | confidence | as-written member | corrected member |
|---|---|---|---|---|---|---|
| story_to_jasmine.py:138-144 | the buffers are emptied only after `desc % its` succeeds, and `StoryToBDD` reuses one `StoryParse`, so the rows of a call that raises stay for the next call | `parse("Then Y", "7")` raises TypeError; a following `parse("Given X", "#7")` then also renders `it('Then Y #7', ...)` | every call starts from empty buffers (reset in a `finally`) | high; not executed | Scenarios.StaleRowsLeak | StoryToJasmine.StoryParse.ParseIsolated |
| plugin.py:207 | `except (ValueError, e)` evaluates the undefined name `e` as soon as the try body raises, so a ValueError from `format` becomes NameError and aborts the whole call | an it template that rejects every row, on the story `Given X` / `Then Y` | `except ValueError as e`: skip the row and go on, as story_to_jasmine.py:193-194 does | high; not executed | Plugin.ParserAbortsOnFormatError | Plugin.FixedItBlockSkips |
