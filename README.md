# koboapi flattening core, in Dafny

This project models the core of `koboapi`, a Python client for KoboToolbox.
The core turns a form's survey content into a schema. It then flattens a
list of survey submissions into linked tables: a main table with one row
per submission, and one table per repeat group whose rows point back to
their submission and, for a group nested inside another, to the outer
instance.

| file | module | what it models |
|---|---|---|
| `results.dfy` | `Results` | `Option`, the Python exceptions the core can raise, `Result`, and a fold that stops at the first error |
| `dicts.dfy` | `Dicts` | Python dicts as association lists in insertion order: `get`, assignment, `pop`, comprehension filters |
| `json.dfy` | `JsonValues` | JSON-like values, Python truthiness, iteration, subscripting, `str()` |
| `text.dfy` | `Text` | `split`, `join`, `count`, `rstrip`, `startswith`, `str(int)`, ASCII `isalnum` and `title` |
| `models.dfy` | `Models` | `Question`, `RepeatGroup`, `SurveyStructure` and their derived names and queries (`koboapi/models.py`) |
| `structure_parser.dfy` | `Parsing` | `StructureParser` and its recursive pre-order walk (`koboapi/structure_parser.py`) |
| `processing.dfy` | `Processing` | `DataProcessor`: the main table, the repeat-group tables and the level sort (`koboapi/data_processor.py`) |
| `utils.dfy` | `Utils` | `safe_filename` and `get_nested_value` (`koboapi/utils.py`) |
| `exporter.dfy` | `Exporting` | `DataExporter`: sheet names and the sheets `to_excel` writes (`koboapi/exporter.py`) |
| `builder.dfy` | `Building` | `XLSFormDataStructureBuilder`: wiring, summary and delegation (`koboapi/builder.py`) |
| `wrapper.dfy` | `KoboWrapper` | the computing parts of the `Kobo` client: endpoint aliases, `get_data` parameters, `list_uid`, download URLs, labels, and the survey and choices parsers (`koboapi/wrapper.py`) |

The code that changes state step by step is written as classes and methods
with loops, as it is in the source. Each such method is proved equal to a
specification function, and the properties of the source are proved about
those functions as lemmas:

- `StructureParser` keeps its running `sequence` counter as a field.
  `Parse` is proved to make exactly the registrations of `LevelRegs`, one
  after another.
- `DataProcessor` builds its rows and tables in loops.
- `Kobo.ParseSurveyContent` runs the group stack machine over the survey
  items. Its state is a stack of open frames. A group is filed into its
  parent when it is closed, so the value model needs no aliasing.
- `Kobo.ParseChoicesContent`, `Kobo.GetData` and `Kobo.FindDownloadUrl`
  are loops and updates over values.

The pure parts stay datatypes, functions and lemmas: the models, the
builder's summary, `safe_filename` and the sheet names.

The model follows the code in the places below, where its design
description says otherwise:

- A repeat group's `level` is `full_name.count('/')`. That counts every
  enclosing group, not only enclosing repeat groups.
- Groups of equal level keep their insertion order. They are not ordered
  by `sequence`.
- Only one level of nesting below a top-level repeat group is read. Only
  the outer instance gets a synthetic id. A group with three or more name
  parts yields no rows.
- A duplicate full name silently replaces the earlier entry. A node
  without a usable name raises no schema error.

## Model

| member | source | states |
|---|---|---|
| `Dicts.GetLaws` | koboapi/wrapper.py:25 | `d.get(k)` finds a value exactly when `k` is a key, and that value is stored under `k` |
| `Dicts.SetKeys` | koboapi/data_processor.py:191 | assigning to an existing key keeps the key order; assigning to a new key appends it last |
| `Dicts.SetGet` | koboapi/data_processor.py:191 | after `d[k] = v`, `d.get(k)` is `v` |
| `Dicts.SetOther` | koboapi/data_processor.py:191 | `d[k] = v` leaves every other key's value unchanged |
| `Dicts.SetTwice` | koboapi/structure_parser.py:45 | assigning the same key twice equals assigning only the second value |
| `Dicts.SetDistinct` | koboapi/structure_parser.py:45 | assignment never duplicates a key |
| `Dicts.SetAllLastWins` | koboapi/structure_parser.py:45 | after a run of assignments, the last one made to a key wins; untouched keys keep their value |
| `Dicts.SetAllAppend` | koboapi/data_processor.py:156-167 | two runs of assignments in a row equal one run over both |
| `Dicts.Remove` | koboapi/wrapper.py:53 | `pop(k)` removes exactly `k` and keeps every other key and value |
| `Dicts.Filter` | koboapi/models.py:49 | a dict comprehension with a condition keeps exactly the entries that satisfy it and never duplicates a key |
| `Dicts.FilterAppend` | koboapi/models.py:49 | the comprehension keeps the dict's order: filtering two parts separately and putting them together gives the filter of the whole |
| `Dicts.SetAllKeysOrder` | koboapi/data_processor.py:156-167 | assigning a run of keys to an empty dict creates the keys in the order of their first assignment, each once |
| `Dicts.FirstOccurrencesUnique` | koboapi/data_processor.py:156-167 | when no key repeats, that order is the order of the run itself |
| `JsonValues.Iterate` | koboapi/wrapper.py:117 | `for x in v` fails exactly on `None`, booleans and numbers; a list yields its items; the result is empty exactly when `v` is falsy |
| `JsonValues.SubscriptLaws` | koboapi/utils.py:34 | `v[key]` succeeds exactly on a dict holding the key and gives its value; otherwise it raises KeyError on a dict and TypeError on anything else |
| `Text.JoinSplit` | koboapi/models.py:39 | `sep.join(s.split(sep)) == s` |
| `Text.SplitPieces` | koboapi/models.py:20 | `s.split(c)` has `s.count(c) + 1` pieces, none containing `c` |
| `Text.LastSegmentLaws` | koboapi/models.py:17-20 | the last segment holds no `/`, is a suffix of the name, and is preceded by `/` when it is shorter than the name |
| `Text.ParentAndLast` | koboapi/models.py:36-39 | for a name with `/`, the pieces before the last `/`, rejoined, then `/` and the last segment give back the name |
| `Text.RStripLaws` | koboapi/structure_parser.py:43 | `rstrip(c)` keeps a prefix that does not end in `c` and removes only copies of `c` |
| `Text.CountAppend` | koboapi/structure_parser.py:59 | `count` adds up over a concatenation |
| `Text.LastSegmentAfter` | koboapi/structure_parser.py:35 | appending a `/`-free name to an empty prefix or a prefix ending in `/` makes that name the last segment |
| `Text.RStripSeparator` | koboapi/structure_parser.py:43 | stripping a trailing separator gives back a string that does not end in one |
| `Text.NatToString` | koboapi/exporter.py:45 | `str(n)` is a non-empty string of decimal digits that denotes `n`, with no leading zero unless `n` is 0 |
| `Text.Title` | koboapi/exporter.py:41 | `title()` keeps the length of the string |
| `Text.TitleAt` | koboapi/exporter.py:41 | `title()` upper-cases a letter that does not follow a letter, lower-cases a letter that does, and leaves every other character alone |
| `Models.OriginalNameLaws` | koboapi/models.py:17-20 | `original_name` is the text after the last `/` (the whole name if there is none), holds no `/`, and is a suffix of the name |
| `Models.SimpleNameLaws` | koboapi/models.py:31-34 | `simple_name` follows the same rule for repeat groups |
| `Models.RepeatGroup.ParentPath` | koboapi/models.py:36-39 | `parent_path` is None exactly when the name has no `/`; otherwise `parent_path + "/" + simple_name == name` |
| `Models.SurveyStructure.GetQuestionsByType` | koboapi/models.py:47-49 | exactly the entries (same keys and objects) whose `type` equals `t`; in a valid structure each key's lookup agrees with `questions` |
| `Models.SurveyStructure.GetQuestionsByPath` | koboapi/models.py:51-53 | exactly the entries whose `path` equals `p`, compared for equality and not as a prefix; in a valid structure each key's lookup agrees with `questions` |
| `Parsing.LevelSound` | koboapi/structure_parser.py:28-72 | every registration takes the next counter value; its name is the enclosing prefix plus its own name, its path that prefix without the trailing `/`, and a group's level is the `/` count of its name |
| `Parsing.LevelCounts` | koboapi/structure_parser.py:28-72 | the walk makes one question registration per question it reaches and one group registration per repeat group it reaches, and no other; so a plain group uses no counter value |
| `Parsing.LevelOrigins` | koboapi/structure_parser.py:49-72 | every group registration is the entry of a group of the form with `repeat` set, found by following the enclosing names from the level down to its own name |
| `Parsing.CountPrefix` | koboapi/structure_parser.py:59 | the prefix below `n` plain-named groups holds exactly `n` slashes |
| `Parsing.PathOfPrefix` | koboapi/structure_parser.py:43 | the path below plain-named groups is their names joined by `/` |
| `Parsing.QuestionNameLaws` | koboapi/structure_parser.py:35-44 | a registered question's `original_name` is its own name, and its path is the enclosing group names joined by `/` |
| `Parsing.GroupNameLaws` | koboapi/structure_parser.py:49-62 | a registered repeat group's `simple_name` is its own name; its path is the enclosing names joined by `/`; its level is the number of enclosing groups, repeat or not |
| `Parsing.GroupParentLaws` | koboapi/structure_parser.py:49-62 | a registered repeat group has a `parent_path` exactly when some group encloses it, and it equals the enclosing names joined by `/` |
| `Parsing.QuestionsFirst` | koboapi/structure_parser.py:28-72 | within one level, every question is registered before any group is descended into |
| `Parsing.StructureEntries` | koboapi/structure_parser.py:45 | every question and repeat group in the result is stored under its own full name and comes from a registration |
| `Parsing.StructureLastWins` | koboapi/structure_parser.py:45 | a full name registered twice keeps its last registration, silently |
| `Parsing.StructureParser.constructor` | koboapi/structure_parser.py:9-11 | the counter starts at 0 |
| `Parsing.StructureParser.Parse` | koboapi/structure_parser.py:13-26 | the result is the structure of the registrations starting at the current counter, without duplicate keys; the counter advances by one per registration and is never reset |
| `Parsing.StructureParser.ParseLevel` | koboapi/structure_parser.py:28-72 | a level assigns its question registrations, then those of its groups, to the two dicts |
| `Parsing.StructureParser.ParseQuestions` | koboapi/structure_parser.py:34-46 | the question loop assigns one entry per question and advances the counter by their number |
| `Parsing.StructureParser.ParseGroup` | koboapi/structure_parser.py:49-72 | a group is registered only when it repeats, and it is descended into only when it has `questions` or `groups` |
| `Processing.BlankRowShape` | koboapi/data_processor.py:143-167 | a fresh main-table row has exactly the 12 metadata columns and the `original_name` of every given question, each once, all None |
| `Processing.ColumnNamesIn` | koboapi/data_processor.py:163-165 | the question columns are exactly the questions' `original_name`s |
| `Processing.DataProcessor.InitializeRow` | koboapi/data_processor.py:143-167 | the loops build that blank row: metadata columns first, then question columns |
| `Processing.FillKeys` | koboapi/data_processor.py:169-191 | filling never adds or removes a column and keeps the row free of duplicate keys |
| `Processing.FillValues` | koboapi/data_processor.py:182-191 | a column takes the value of the last non-list field whose last `/` segment names it; with no such field it keeps its value; a column not in the row stays absent |
| `Processing.DataProcessor.FillRowData` | koboapi/data_processor.py:169-191 | the loop computes that filling |
| `Processing.BlankRowColumns` | koboapi/data_processor.py:143-167 | the columns of a fresh main-table row in order: the metadata columns, then the question columns in dict order, each where it first occurs; exactly that sequence when no column name repeats |
| `Processing.MainTableColumns` | koboapi/data_processor.py:71-102 | every main-table row has the columns of the blank row in the blank row's order |
| `Processing.MainTableRow` | koboapi/data_processor.py:71-102 | one row per submission, in order; row `i` has exactly the metadata columns and the root questions' columns, whatever the submission holds; each column holds the last matching field, or None |
| `Processing.DataProcessor.CreateMainTable` | koboapi/data_processor.py:71-102 | the loop builds the main table |
| `Processing.GroupQuestions` | koboapi/data_processor.py:120-124 | a group's questions are exactly those whose path equals the group name or starts with `groupname/` |
| `Processing.SubmissionId` | koboapi/data_processor.py:132 | the id is `_id`, else `meta/instanceID`, else `""` |
| `Processing.GroupRowShape` | koboapi/data_processor.py:225-235 | a repeat row has exactly the header's columns and the group's question columns; a header value stays unless a question column or a field overrides it |
| `Processing.ItemRowsOk` | koboapi/data_processor.py:224-235 | the element loop fails exactly when some element is not a dict |
| `Processing.ItemRowsAll` | koboapi/data_processor.py:224-235 | one row per element, in element order, each filled from its element |
| `Processing.LevelZeroRows` | koboapi/data_processor.py:218-235 | a level-0 group yields no rows when its key is absent; otherwise one row per element of `submission[simple_name]`, in order, under a `_parent_id` header |
| `Processing.OuterRowsCount` | koboapi/data_processor.py:265-300 | the nested rows number the total length of the arrays under `"p0/p1"` in the outer elements |
| `Processing.OuterRowsKeys` | koboapi/data_processor.py:286-300 | each nested row has exactly `_parent_id`, `_{p0}_id` and the group's question columns |
| `Processing.NestedHeaderIds` | koboapi/data_processor.py:272-291 | outer element `i` gets the id `"{submissionId}_{i+1}"`, and `_parent_id` is the submission id (unless the outer group is named `parent`) |
| `Processing.DeepGroupRows` | koboapi/data_processor.py:265-302 | a group with three or more name parts yields no rows |
| `Processing.SinglePartRows` | koboapi/data_processor.py:236-265 | a group of non-zero level with a one-part name yields no rows |
| `Processing.DataProcessor.ExtractRepeatData` | koboapi/data_processor.py:193-241 | the method computes the rows one submission contributes to a group |
| `Processing.DataProcessor.AppendItemRows` | koboapi/data_processor.py:224-235 | the element loop shared by both kinds of group appends the element rows to `rows` |
| `Processing.DataProcessor.ExtractNestedRepeatData` | koboapi/data_processor.py:243-302 | the nested loops compute the nested rows |
| `Processing.DataProcessor.InitializeRowForGroup` | koboapi/data_processor.py:304-318 | the group's question columns are assigned None after the header's |
| `Processing.DataProcessor.CreateRepeatTable` | koboapi/data_processor.py:104-141 | a group's table is the rows of every submission in turn, or the first error |
| `Processing.SortByLevelSorted` | koboapi/data_processor.py:320-336 | the groups come out in ascending level |
| `Processing.SortByLevelPermutes` | koboapi/data_processor.py:320-336 | the groups come out as a permutation of the input |
| `Processing.SortByLevelStable` | koboapi/data_processor.py:320-336 | groups of equal level keep their insertion order |
| `Processing.DataProcessor.SortedRepeatGroupsLaws` | koboapi/data_processor.py:320-336 | the processor's sorted groups are sorted by level and a permutation of the structure's groups |
| `Processing.GroupTablesFail` | koboapi/data_processor.py:57-67 | the group tables fail exactly when some group's table fails |
| `Processing.GroupTablesShape` | koboapi/data_processor.py:57-67 | at most one table per group, and none without rows |
| `Processing.GroupTablesPick` | koboapi/data_processor.py:57-67 | the group tables are exactly the tables of the groups that have rows, in the groups' order: the k-th table is the table of the group at an increasing position, and every group left out has no rows |
| `Processing.ProcessTables` | koboapi/data_processor.py:31-69 | after the main table come the tables of the repeat groups in `SortByLevel` order, one per group that has rows and only those |
| `Processing.ProcessShape` | koboapi/data_processor.py:31-69 | no submissions give no tables; otherwise the main table comes first with one row per submission, followed by at most one non-empty table per repeat group; processing fails exactly when some group's table fails |
| `Processing.DataProcessor.ProcessSubmissions` | koboapi/data_processor.py:31-69 | the method computes `Process`: the main table, then the group tables in level order |
| `Utils.ReplaceChar` | koboapi/utils.py:11 | `replace(a, b)` keeps the length and swaps exactly the `a` characters |
| `Utils.KeepLaws` | koboapi/utils.py:10 | the filter keeps exactly the allowed characters, in their order |
| `Utils.KeepSafe` | koboapi/utils.py:10 | a string of safe characters passes the filter unchanged |
| `Utils.SliceToPrefix` | koboapi/utils.py:12 | `s[:n]` is a prefix, of length `min(n, len(s))` when `n >= 0` |
| `Utils.SafeFilenameChars` | koboapi/utils.py:8-12 | every output character is a letter, a digit, `-` or `_`, and the output is at most `max_length` long |
| `Utils.SafeFilenameOrder` | koboapi/utils.py:10-12 | the output is a prefix of the filtered, right-stripped name with spaces made `_`, and the kept characters keep their order |
| `Utils.SafeFilenameUnnamed` | koboapi/utils.py:10-12 | when only spaces survive the filter, the output is `unnamed` cut to `max_length` |
| `Utils.SafeFilenameIdempotent` | koboapi/utils.py:8-12 | with a non-negative `max_length`, applying `safe_filename` twice changes nothing |
| `Utils.SafeFilenameNegativeCut` | koboapi/utils.py:12 | with a negative `max_length` a second application cuts again |
| `Utils.FollowAppend` | koboapi/utils.py:33-34 | following a path in two parts is following the first part, then the second from where it ends |
| `Utils.NestedValueSingle` | koboapi/utils.py:28-37 | a path without `.` is `data.get(path, default)` |
| `Utils.GetNestedValue` | koboapi/utils.py:28-37 | the loop follows the dotted keys in order, and a missing key or a non-dict on the way gives `default` |
| `Exporting.GroupSheetNamesAt` | koboapi/exporter.py:35-41 | the `i`-th group name is that group's label or title-cased simple name |
| `Exporting.PadShape` | koboapi/exporter.py:43-45 | padding keeps the names it is given and fills each position `k` up to `count` with `Sheet_k` |
| `Exporting.SheetNamesShape` | koboapi/exporter.py:31-47 | exactly `count` names: the base name first, then the repeat groups in stable level order (label, or title-cased simple name), then `Sheet_k` at position `k` |
| `Exporting.WorkbookShape` | koboapi/exporter.py:15-29 | an empty table list raises ValueError; otherwise each table gets one sheet, in order, the first named after the survey; every sheet name is safe and at most 31 characters |
| `Exporting.DataExporter.constructor` | koboapi/exporter.py:12-13 | the exporter keeps the structure it is given |
| `Exporting.DataExporter.GenerateSheetNames` | koboapi/exporter.py:31-47 | the append and padding loops compute the sheet names |
| `Exporting.DataExporter.ToExcel` | koboapi/exporter.py:15-29 | the method computes the workbook's sheets, or the error |
| `Building.DistinctTypesLaws` | koboapi/builder.py:38 | the question types are exactly the types some question has, each once |
| `Building.XLSFormDataStructureBuilder.constructor` | koboapi/builder.py:16-20 | the form is parsed once by a fresh parser, and processor and exporter share that structure |
| `Building.XLSFormDataStructureBuilder.ProcessSubmissions` | koboapi/builder.py:22-24 | delegates unchanged to the processor over the parsed structure |
| `Building.XLSFormDataStructureBuilder.ExportToExcel` | koboapi/builder.py:26-31 | delegates unchanged to the exporter |
| `Building.XLSFormDataStructureBuilder.GetStructureSummary` | koboapi/builder.py:33-39 | `total_questions` is the number of questions; `repeat_groups` lists the group keys in insertion order; `question_types` holds each type once |
| `Building.XLSFormDataStructureBuilder.GetQuestionsByType` | koboapi/builder.py:41-43 | delegates unchanged to the structure: exactly the questions of that type |
| `KoboWrapper.ResolveEndpoint` | koboapi/wrapper.py:17-25 | the two aliases give their URLs, and any other endpoint is used as the URL itself |
| `KoboWrapper.Kobo.constructor` | koboapi/wrapper.py:22-27 | the client is created with the resolved URL |
| `KoboWrapper.ExtractLabelFalsy` | koboapi/wrapper.py:177-182 | the label is falsy, so that the question and choice parsers fall back to the name, exactly when the item has no label, a falsy one, or a list label whose first element is falsy; a string label comes back unchanged, and a list label never comes back whole |
| `KoboWrapper.AssetEntriesAt` | koboapi/wrapper.py:41-44 | the `i`-th entry is the name and uid of the `i`-th asset |
| `KoboWrapper.ListUidLaws` | koboapi/wrapper.py:39-44 | `list_uid` fails exactly when some asset is not a dict or has an unhashable name; otherwise it maps every name, once each, to the uid of the last asset with that name |
| `KoboWrapper.Kobo.GetData` | koboapi/wrapper.py:47-58 | `submitted_after` never reaches the request: next to `query` it is dropped; alone it becomes a `_submission_time` query appended last; every other parameter passes through unchanged |
| `KoboWrapper.FirstUrlAt` | koboapi/wrapper.py:184-190 | when the first download of the format is at `j`, its url is the answer |
| `KoboWrapper.FirstUrlNone` | koboapi/wrapper.py:184-190 | when no download has the format, the answer is None |
| `KoboWrapper.FirstUrlFound` | koboapi/wrapper.py:184-190 | a url that is found belongs to the first download with that format |
| `KoboWrapper.Kobo.FindDownloadUrl` | koboapi/wrapper.py:184-190 | the loop returns the first matching url, None, or the error |
| `KoboWrapper.StepBegin` | koboapi/wrapper.py:120-132 | `begin_*` opens an empty group under the current one and makes it current; `repeat` is true exactly for `begin_repeat`; the label has no fallback; the group takes the next sequence number |
| `KoboWrapper.StepEnd` | koboapi/wrapper.py:134-135 | `end_*` files the current group under its key in the enclosing group, which becomes current; at the root it uses up the stack's root entry, and then raises IndexError |
| `KoboWrapper.StepQuestion` | koboapi/wrapper.py:137-151 | a named item becomes a question of the current group with the next sequence number; its label falls back to its name; `list_name` is present exactly when `select_from_list_name` is; an unnamed item changes nothing |
| `KoboWrapper.RunSequence` | koboapi/wrapper.py:112-151 | the counter after `n` items is the number of opened groups and named questions among them |
| `KoboWrapper.RunDepth` | koboapi/wrapper.py:114-135 | while no `end_*` closes more groups than were opened, the stack is one entry longer than the number of open groups |
| `KoboWrapper.Kobo.ParseSurveyContent` | koboapi/wrapper.py:110-153 | the loop runs the stack machine over the survey items and returns the root group |
| `KoboWrapper.AddChoiceLaws` | koboapi/wrapper.py:160-173 | a choice is filed under its name in its list's bucket with the next number, overwriting an earlier choice of that name; the label falls back to the name; a list's first choice creates its bucket; nothing else changes |
| `KoboWrapper.ChoicesUpToFiled` | koboapi/wrapper.py:155-175 | after any number of choices, each sits in its own list's bucket under its own name, numbered below the count read, with no list or name occurring twice |
| `KoboWrapper.Kobo.ParseChoicesContent` | koboapi/wrapper.py:155-175 | the loop computes the choice lists, with one counter shared across all lists |

## Left out

- The HTTP client (`koboapi/client.py`) and every network call are not modelled. `Kobo.GetData` returns the request path and parameters it would send. `list_uid`, `_find_download_url` and the content parsers take the decoded response as a parameter.
- The `debug` prints in `get_data` and in `_export_to_xlsx`, and the unconditional success message `to_excel` prints (koboapi/exporter.py:29), are not modelled, because they are output only.
- These client methods are not modelled: `list_assets`, `get_asset`, `get_questions`, `get_choices`, `data_to_dataframes`, `data_to_xlsx`, `download_xlsform` and `_export_to_xlsx`. They are HTTP, file output, or one-line delegations to the parsers modelled here.
- The writing of the Excel file in `to_excel` (`ExcelWriter`) is file output and is not modelled. `DataExporter.ToExcel` returns the ordered sheets it would write.
- `load_json_file` and `ensure_directory` (koboapi/utils.py:14-26) are file-system I/O and are not modelled.
- `koboapi/exceptions.py` only declares exception classes. The model's `PyError` names the exceptions the core can raise.
- pandas DataFrames become sequences of rows, and a row is an ordered dict. "Empty" means no rows. Column alignment across rows of one DataFrame is not modelled.
- `isalnum` and `title` are modelled on ASCII letters and digits only. Unicode categories and Unicode case mapping are not modelled.
- `str()` of a non-string value is modelled by a simplified `repr` that does not escape quotes or special characters. A survey item's `name` is a dict key in Python, whatever its type. The model keys it by its `str()` text instead. So a nameless group (`name` None) is keyed by the text `"None"`, and a numeric or boolean `name` by its digits or `True`/`False`, where Python uses the value itself. A group literally named `None`, or a string name that spells a number, would share that key in the model.
- The form description the schema parser reads is typed: a question's `type` is a string, a group's `repeat` a boolean, and `questions` and `groups` are dicts. `_parse_survey_content` stores a non-string item `type` as its `str()` text.
- Python's `==` on numbers (`1 == 1.0 == True`) is not modelled: JSON values compare structurally, and there are no floats.
- `Exporting.DataExporter.ToExcel`: a sheet label that is not a string is a TypeError in the model. Python raises TypeError for a truthy number or boolean (a falsy label falls back to the title-cased name). It accepts a list of strings or a dict, and raises AttributeError for a list holding a non-string.
- `Exporting.DataExporter.ToExcel`: the sheets written before an error are not modelled, since the model writes nothing.
- `Building.XLSFormDataStructureBuilder.GetStructureSummary`: `question_types` comes from a Python set, whose order is unspecified. The model lists the types in first-occurrence order and states only membership and distinctness.
- `Utils.SafeFilenameIdempotent` requires a non-negative `max_length`, because with a negative one a second application cuts again (`Utils.SafeFilenameNegativeCut`).
- `KoboWrapper.Kobo.GetData` requires the parameters to have distinct keys, as Python keyword arguments always do.
- Aliasing in `_parse_survey_content` is not modelled: a new group is written into its parent only when it is closed, or at the end. The resulting tree is the same, because the parent holds the same object it would otherwise receive.
- `_extract_repeat_data` splits the group name into `path_parts` before it branches on the level. The model splits it only in the nested branch, where it is used. Nothing observable differs, because the split is pure.
