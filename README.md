# Intents backends, XLSX exporter and item clients in Dafny

The repository holds two Python web backends for "intents" — descriptions of
what a piece of work is for — together with a standard-library XLSX exporter and
two small React clients. This project models their core logic in Dafny and proves
the properties that logic promises.

- **declaring** is the first backend. It keeps intents with their facts and
  users in lists in memory, with one id counter per list, and items in a database
  table behind an SQLAlchemy session. Its services
  publish one domain event per successful change. It also holds the shared
  pieces: the API-key checks, the problem-details error responses, the database
  URL choice and the structured log formatter.
- **intentions** is the second backend. It stores intents together with their
  articulation: aspects, inputs, choices, pitfalls, assumptions and qualities,
  plus examples, prompts, outputs and insights. Its service replaces the
  articulation one type at a time, and it checks that an insight's sources belong
  to the intent.
- Both backends answer MCP (Model Context Protocol) requests over JSON-RPC 2.0
  behind an origin allow-list. The second backend also has an adapter that
  normalises the Accept header and collects the SDK's reply.
- **The XLSX exporter** works on SpreadsheetML (ECMA-376 Part 1). It converts A1
  references, normalises ranges, slugifies sheet names, decides whether a number
  format is a date, types cells, and lays out the used range as a grid.
- **The React clients** comprise the `ApiError` type and the API configuration
  of the customer client, and the HTTP client, item calls and `useCreateItem`
  hook of the item client.

Where the code keeps state and changes it step by step, the model does too:
- The repositories are classes with `seq` fields that their methods reassign,
  and their contracts state the whole new state.
- The event bus, the event log and the hook's three cells are classes.
- The loops of the exporter, the SDK adapter and the log formatter are `while`
  and `for` loops with invariants, proved against functions that state their
  results.

Everything else is functions over datatypes. Errors that the Python code raises
(`ValueError`, `HTTPException`) are `Result` values. Clocks, the network, `fetch`
and `JSON.stringify` are parameters.

The code, rather than its tests or documentation, is what is modelled. Four
places where they disagree:
- The first backend's intent router passes a repository that the service does
  not take (`declaring/app/intents/router.py:36` against `service.py:25`).
- The repository never attaches facts to the intents it returns, although a test
  expects them (`declaring/app/intents/repository.py:196-208`).
- The validation handler answers only `{"detail": errors}`, although a test
  expects a "Request validation failed" message
  (`declaring/app/shared/exception_handlers.py:62-65`).
- The `useCreateItem` hook sets its three cells one by one, so two overlapping
  creates can interleave. `CreateItemHook.OverlappingCreates` states what that
  gives.

The request types that the second backend's service imports are not in its
schema file. Their fields are modelled as the service reads them.

## Model

| member | source | states |
|---|---|---|
| SheetCoords.ColumnLetters | business/financing/tools/xlsx_to_llm.py:84-89 | the column letters are upper-case and empty exactly for column 0 |
| SheetCoords.ColumnNumberOfLetters | business/financing/tools/xlsx_to_llm.py:72-88 | reading the letters written for a column gives the column back |
| SheetCoords.ColumnLettersOfNumber | business/financing/tools/xlsx_to_llm.py:72-88 | writing the number of any upper-case string gives the string back, so letters and column numbers correspond one to one |
| SheetCoords.SplitA1Matches | business/financing/tools/xlsx_to_llm.py:37-71 | the split into letters and digits succeeds exactly on the pattern's language: capitals, digits, and an optional final newline as Python's `$` allows |
| SheetCoords.A1ToRc | business/financing/tools/xlsx_to_llm.py:64-75 | the loop computes the column of the letters and the row of the digits; it succeeds exactly when the reference matches the pattern, and the column is then at least 1 |
| SheetCoords.RcToA1 | business/financing/tools/xlsx_to_llm.py:78-89 | the loop writes the letters of the column before the decimal row; it fails exactly when row or column is below 1 |
| SheetCoords.RoundTripRc | business/financing/tools/xlsx_to_llm.py:64-89 | printing a valid (row, column) and parsing it back gives the same pair |
| SheetCoords.RoundTripA1 | business/financing/tools/xlsx_to_llm.py:64-89 | parsing a reference without leading zero in the row and without final newline and printing it back gives the reference |
| SheetCoords.SplitAtColon | business/financing/tools/xlsx_to_llm.py:98 | `split(":", 1)` cuts at the first colon |
| SheetCoords.ParseRange | business/financing/tools/xlsx_to_llm.py:92-103 | a parsed range has min at most max in both axes and a column of at least 1 |
| SheetCoords.ParseRangeSingle | business/financing/tools/xlsx_to_llm.py:102-103 | a reference without colon parses exactly when it matches, to the one-cell range (r, c, r, c) |
| SheetCoords.ParseRangeOkIff | business/financing/tools/xlsx_to_llm.py:97-101 | a two-corner range parses exactly when both corners do |
| SheetCoords.ParseRangeSymmetric | business/financing/tools/xlsx_to_llm.py:97-101 | the order of the two corners does not matter |
| SheetCoords.ParseRangeSpansCorners | business/financing/tools/xlsx_to_llm.py:99-101 | the range is the componentwise minimum and maximum of the two corners |
| SheetCoords.ColumnExamples | business/financing/tools/xlsx_to_llm.py:84-89 | 1 is "A", 26 is "Z", 27 is "AA" |
| SheetCoords.RowZeroExample | business/financing/tools/xlsx_to_llm.py:75-83 | "A0" parses to row 0, which the printer refuses |
| SheetCoords.LeadingZeroExample | business/financing/tools/xlsx_to_llm.py:75-89 | "A01" parses to (1, 1), which prints as "A1" |
| SheetCoords.PatternExamples | business/financing/tools/xlsx_to_llm.py:37-70 | lower case and absolute references are refused; a final newline is accepted |
| SheetNames.ReplaceNonSlugRuns | business/financing/tools/xlsx_to_llm.py:59 | replacing runs outside [a-z0-9] with "_" leaves only slug characters and no doubled "_" |
| SheetNames.CollapseKeeps | business/financing/tools/xlsx_to_llm.py:60 | collapsing "_" runs changes nothing once there are no doubles |
| SheetNames.StripUnderscoresShape | business/financing/tools/xlsx_to_llm.py:60 | stripping "_" keeps the alphabet and leaves no "_" at either end |
| SheetNames.SlugifyIsSlug | business/financing/tools/xlsx_to_llm.py:40-61 | every result is non-empty, over [a-z0-9_], with no "_" at either end and none doubled |
| SheetNames.SlugifyKeepsSlug | business/financing/tools/xlsx_to_llm.py:40-61 | a well-formed slug is its own slug |
| SheetNames.SlugifyIdempotent | business/financing/tools/xlsx_to_llm.py:40-61 | slugifying twice gives the same as once |
| SheetNames.SlugifyEmpty | business/financing/tools/xlsx_to_llm.py:61 | a name with nothing to keep gives "sheet" |
| SheetNames.SlugifySharpS | business/financing/tools/xlsx_to_llm.py:47 | ß becomes "ss" |
| SheetNames.SlugifyUmlaut | business/financing/tools/xlsx_to_llm.py:41-44 | Ä is lower-cased, then written "ae" |
| SheetDates.NoIdIsNeverDate | business/financing/tools/xlsx_to_llm.py:124-125 | without a format id nothing is a date, whatever the code |
| SheetDates.BuiltinIsDate | business/financing/tools/xlsx_to_llm.py:127-128 | the built-in ids 14-22 and 45-47 are dates, even with an elapsed-time marker in the code |
| SheetDates.CustomFormatRule | business/financing/tools/xlsx_to_llm.py:129-135 | for any other id: a date exactly when there is a code, it has no [h], [m] or [s] in lower case, and it holds one of the tokens |
| SheetDates.ElapsedExample | business/financing/tools/xlsx_to_llm.py:127-133 | "[h]:mm:ss" is a date under id 46 and not under a custom id |
| SheetDates.CustomDateExample | business/financing/tools/xlsx_to_llm.py:129-134 | "YYYY-MM-DD" under a custom id is a date, through lower-casing |
| SheetDates.ExcelDayOffset | business/financing/tools/xlsx_to_llm.py:111-114 | the day count is the whole part of the serial, one less from serial 60 on |
| SheetDates.RoundHalfEven | business/financing/tools/xlsx_to_llm.py:116 | `round` gives an integer within a half of its argument, the even one on a tie |
| SheetDates.ExcelSerialToDatetime | business/financing/tools/xlsx_to_llm.py:106-117 | a converted serial is finite, lies in the years 1 to 9999, and within a day of its day count |
| SheetDates.NonFiniteSerialRaises | business/financing/tools/xlsx_to_llm.py:111 | `int` of NaN raises ValueError and `int` of an infinity OverflowError |
| SheetDates.SerialInRange | business/financing/tools/xlsx_to_llm.py:106-117 | every serial from -693593 to 2958465 converts |
| SheetDates.SerialOutOfRange | business/financing/tools/xlsx_to_llm.py:106-117 | a serial from 2958466 on, or at -693595 or below, raises OverflowError |
| SheetDates.LastDayBoundary | business/financing/tools/xlsx_to_llm.py:112-116 | the last second of 31 December 9999 converts, and a fraction that rounds up to the next midnight raises |
| SheetDates.RangeEndDates | business/financing/tools/xlsx_to_llm.py:115-116 | the ends of the range are 1 January 1 and 31 December 9999, and the days beyond them fall in years 0 and 10000 |
| SheetDates.PhantomLeapDay | business/financing/tools/xlsx_to_llm.py:113-114 | serials 59 and 60 give the same day count, 61 the next |
| SheetDates.DayOffsetMonotone | business/financing/tools/xlsx_to_llm.py:111-114 | the day count never decreases as the serial grows |
| SheetDates.FirstSerialExample | business/financing/tools/xlsx_to_llm.py:111-116 | serial 1 is 1 January 1900 |
| SheetDates.LeapDayExample | business/financing/tools/xlsx_to_llm.py:111-116 | serials 59 and 60 are both 28 February 1900 |
| SheetDates.MarchExample | business/financing/tools/xlsx_to_llm.py:111-116 | serial 61 is 1 March 1900 |
| SheetDates.EpochExample | business/financing/tools/xlsx_to_llm.py:111-116 | serial 25569 is 1 January 1970 |
| SheetCells.Styles.GetNumFmt | business/financing/tools/xlsx_to_llm.py:165-171 | no id and no code for a missing or out-of-range index; otherwise the id at that index and the code exactly when the id has one |
| SheetCells.PyIntOfNatToString | business/financing/tools/xlsx_to_llm.py:260 | `int` reads a rendered natural number back |
| SheetCells.SharedString | business/financing/tools/xlsx_to_llm.py:259-263 | the table entry at the integer index, "" for a non-integer or out-of-range one |
| SheetCells.SharedStringAt | business/financing/tools/xlsx_to_llm.py:259-261 | a rendered index inside the table selects that entry |
| SheetCells.StyleIndex | business/financing/tools/xlsx_to_llm.py:245-246 | the style index exists exactly when the attribute is a non-empty run of digits, and is their value |
| SheetCells.CellValueFromXml | business/financing/tools/xlsx_to_llm.py:235-363 | raises exactly for a date cell whose serial `excel_serial_to_datetime` cannot convert, with that error; otherwise the dispatch on `t`: shared string, inline string, boolean exactly for "b" and true exactly for "1", formula text for "str"; otherwise empty exactly for an empty raw, number or date exactly when the raw parses (NaN and infinities included), date exactly among those when the format looks like one, and a string for an unparsable raw; the reference, raw value, formula, style and format are carried along |
| SheetCells.FarDateRaises | business/financing/tools/xlsx_to_llm.py:355-356 | serial 3000000 under the built-in date format 14 raises the out-of-range error |
| SheetCells.NanDateRaises | business/financing/tools/xlsx_to_llm.py:346-356 | NaN raises under a date format and is kept as a number under any other |
| SheetCells.ReferencedCells | business/financing/tools/xlsx_to_llm.py:366-380 | succeeds exactly when no referenced cell fails, a cell failing when its value raises or its reference does not match the pattern; each yielded cell is at the position its reference names with its column letters |
| SheetCells.ReferencedCellsHead | business/financing/tools/xlsx_to_llm.py:371-376 | a failing first cell reports its own error, its value before its reference; otherwise the run fails as the rest does |
| SheetCells.ReferencedCellsFirstFailure | business/financing/tools/xlsx_to_llm.py:371-376 | a failed run reports the error of the first failing cell in document order |
| SheetCells.ReferencedCellsContents | business/financing/tools/xlsx_to_llm.py:371-380 | a successful run yields one cell per referenced cell, in document order, the k-th typed by `cell_value_from_xml` from the k-th referenced cell and placed where its reference names |
| SheetCells.ReferencedOnly | business/financing/tools/xlsx_to_llm.py:371-374 | only cells with a non-empty reference take part |
| SheetCells.ColumnLabel | business/financing/tools/xlsx_to_llm.py:379-433 | `rc_to_a1(1, col).rstrip("1")` is the column letters |
| SheetExport.UsedRange | business/financing/tools/xlsx_to_llm.py:402-411 | the dimension reference when there is one, else the bounding box of the cells (each bound attained by some cell), else (1, 1, 1, 1) |
| SheetExport.CellIndexLastWins | business/financing/tools/xlsx_to_llm.py:427 | a coordinate is in `by_rc` exactly when some cell has it, holding the last such cell |
| SheetExport.BuildCellIndex | business/financing/tools/xlsx_to_llm.py:427 | the loop builds exactly `by_rc` |
| SheetExport.GridEntries | business/financing/tools/xlsx_to_llm.py:433-444 | the header is "_row" and the column letters; each data row starts with its row number, and a missing or empty-typed cell is blank |
| SheetExport.BuildGrid | business/financing/tools/xlsx_to_llm.py:431-444 | the nested loops build the header and one row per sheet row of the range, column by column |
| SheetExport.ExportSheet | business/financing/tools/xlsx_to_llm.py:392-470 | fails with the cells' error when reading the cells fails (a bad reference or an unconvertible date); succeeds exactly when the cells are read, the used range parses and starts at row 1 or later; the result holds the used range, its A1 form, the cell count and the grid |
| DeclaringIntents.StripOptional | declaring/app/intents/models.py:44-46 | absent and "" become absent, anything else is stripped, so a whitespace-only value becomes "" |
| DeclaringIntents.NewIntent | declaring/app/intents/models.py:19-51 | raises for the first blank of name, description, output format with its message; otherwise the required fields are stripped and non-empty, the optional ones normalised, and id and facts kept |
| DeclaringIntents.StripOptionalNormal | declaring/app/intents/models.py:44-46 | a normalised optional field is stripped |
| DeclaringIntents.RebuildNormal | declaring/app/intents/models.py:19-51 | building a constructed intent again succeeds and only drops optional fields left as "" |
| DeclaringIntents.RebuildSettles | declaring/app/intents/models.py:19-51 | after one rebuild, further rebuilds change nothing |
| DeclaringIntents.WhitespaceOptionalKept | declaring/app/intents/models.py:44 | a whitespace-only optional field is stored as "", not as absent |
| DeclaringIntents.NewFact | declaring/app/intents/models.py:62-80 | a blank value raises "Value cannot be empty"; otherwise the value is stored stripped and non-empty, with id and intent id kept |
| IntentionsModels.RequireNonEmpty | intentions/app/intents/models.py:16-19 | a blank value raises "<field> cannot be empty"; otherwise the stripped, non-empty value |
| IntentionsModels.CheckedOptional | intentions/app/intents/models.py:12-178 | the stripped optional value passes exactly when it is absent, "" or in the set, and the error is the set's message |
| IntentionsModels.WhitespaceSkipsEnum | intentions/app/intents/models.py:176-177 | a whitespace-only value becomes "" and skips the set check |
| IntentionsModels.NewIntent | intentions/app/intents/models.py:25-56 | raises for a blank name, then a blank description; otherwise both stripped, the times defaulted, every omitted collection empty |
| IntentionsModels.RebuildIntentIdentity | intentions/app/intents/models.py:25-56 | constructing from a constructed intent's fields gives it back |
| IntentionsModels.NewAspect | intentions/app/intents/models.py:62-77 | a blank name raises; otherwise the stripped name and normalised description |
| IntentionsModels.NewInput | intentions/app/intents/models.py:83-104 | a blank name, then a blank description, raises; otherwise stripped fields and the given required flag |
| IntentionsModels.NewChoice | intentions/app/intents/models.py:110-133 | a blank name, then a blank description, raises; otherwise stripped fields |
| IntentionsModels.NewPitfall | intentions/app/intents/models.py:139-156 | a blank description raises; otherwise stripped fields |
| IntentionsModels.NewAssumption | intentions/app/intents/models.py:162-181 | a blank description raises first; then a non-empty confidence outside verified, likely, uncertain raises |
| IntentionsModels.NewQuality | intentions/app/intents/models.py:187-208 | a blank criterion raises first; then a non-empty priority outside must_have, should_have, nice_to_have raises |
| IntentionsModels.NewExample | intentions/app/intents/models.py:214-235 | a blank sample raises first; then a non-empty source outside user_provided, llm_generated, from_output raises |
| IntentionsModels.NewPrompt | intentions/app/intents/models.py:241-256 | a blank content raises; otherwise the stripped content and the given version |
| IntentionsModels.NewOutput | intentions/app/intents/models.py:262-275 | a blank content raises; otherwise the stripped content |
| IntentionsModels.NewInsight | intentions/app/intents/models.py:281-308 | content, then source type, then status are checked in that order, each set check skipped for absent or "" |
| IntentionsModels.RequiredTextAgain | intentions/app/intents/models.py:16-19 | a required text as a constructor kept it passes the check again unchanged |
| IntentionsModels.CheckedOptionalAgain | intentions/app/intents/models.py:174-178 | an optional text with a closed set, as kept, passes again, "" becoming absent |
| IntentionsModels.RebuildAspect | intentions/app/intents/models.py:62-77 | constructing a constructed aspect again, under any id and owner, succeeds and only drops a description left as "" |
| IntentionsModels.RebuildInput | intentions/app/intents/models.py:83-104 | constructing an input again succeeds and only drops a format left as "" |
| IntentionsModels.RebuildChoice | intentions/app/intents/models.py:110-133 | constructing a choice again succeeds and only drops options, selected option and rationale left as "" |
| IntentionsModels.RebuildPitfall | intentions/app/intents/models.py:139-156 | constructing a pitfall again succeeds and only drops a mitigation left as "" |
| IntentionsModels.RebuildAssumption | intentions/app/intents/models.py:162-181 | constructing an assumption again succeeds and only drops a confidence left as "" |
| IntentionsModels.RebuildQuality | intentions/app/intents/models.py:187-208 | constructing a quality again succeeds and only drops a measurement or priority left as "" |
| IntentionsModels.RebuildExample | intentions/app/intents/models.py:214-235 | constructing an example again succeeds and only drops an explanation or source left as "" |
| IntentionsModels.RebuildPrompt | intentions/app/intents/models.py:241-256 | constructing a prompt again gives it back under the new id and owner |
| IntentionsModels.RebuildInsight | intentions/app/intents/models.py:281-308 | constructing an insight again succeeds and only drops a source type or status left as "" |
| IntentionsModels.WhitespaceDescriptionDropped | intentions/app/intents/models.py:62-77 | a whitespace-only description is kept as "" by the first construction and is absent after the next |
| DeclaringIntentRepository.IntentOfRow | declaring/app/intents/repository.py:196-208 | reading a row runs the constructor again: it fails exactly on a blank required field; the result has the row's id and no facts |
| DeclaringIntentRepository.FactOfRow | declaring/app/intents/repository.py:224-232 | reading a fact row runs the constructor again: fails exactly on a blank value, otherwise the row's ids and the stripped value |
| DeclaringIntentRepository.IntentIndex | declaring/app/intents/repository.py:46-98 | the slot the enumerate loops stop at: the first with the id, and none exactly when no row has it |
| DeclaringIntentRepository.FactIndex | declaring/app/intents/repository.py:152-191 | the first slot matching both the fact id and the intent id, none when no slot matches both |
| DeclaringIntentRepository.FactsOfIntent | declaring/app/intents/repository.py:138 | exactly the facts of the intent |
| DeclaringIntentRepository.FactsNotOfIntent | declaring/app/intents/repository.py:101 | exactly the facts of other intents |
| Wrappers.RemoveAt | declaring/app/intents/repository.py:99-192 | `pop(index)` removes that slot and shifts the later rows down by one |
| DeclaringIntentRepository.CounterIsFresh | declaring/app/intents/repository.py:24-64 | the counter is no id in use, and appending the row created with it keeps ids increasing and below the counter: ids are 1, 2, … and never reused |
| DeclaringIntentRepository.FactAppendKeepsValid | declaring/app/intents/repository.py:122-125 | a fact appended under a stored intent with the fact counter as id keeps the fact table valid |
| DeclaringIntentRepository.FindAfterAppend | declaring/app/intents/repository.py:46-65 | after a create, the new id finds the new row |
| DeclaringIntentRepository.FindOtherAfterAppend | declaring/app/intents/repository.py:46-64 | a create does not change the lookup of any other id |
| DeclaringIntentRepository.DeleteLeavesNone | declaring/app/intents/repository.py:97-102 | removing the found slot leaves no intent with that id |
| DeclaringIntentRepository.RemoveDropsId | declaring/app/intents/repository.py:99 | removing a slot removes exactly its id |
| DeclaringIntentRepository.CascadeKeepsOwned | declaring/app/intents/repository.py:101 | after the cascade every fact left belongs to an intent left |
| DeclaringIntentRepository.CascadeRemovesAll | declaring/app/intents/repository.py:101 | after a delete no fact of the deleted intent is left |
| DeclaringIntentRepository.SameIdsSameIndex | declaring/app/intents/repository.py:81-83 | a slot update under the same id leaves every lookup where it was |
| DeclaringIntentRepository.FactSlotUpdate | declaring/app/intents/repository.py:169-175 | the first slot matching both ids is the one updated, and the update keeps the fact table valid |
| DeclaringIntentRepository.FindAfterUpdate | declaring/app/intents/repository.py:78-84 | after an update, the id finds the argument with the forced id and stored creation time |
| DeclaringIntentRepository.IntentRepository.constructor | declaring/app/intents/repository.py:21-25 | both tables empty, both counters 1 |
| DeclaringIntentRepository.IntentRepository.FindAll | declaring/app/intents/repository.py:27-34 | every stored intent converted, in insertion order |
| DeclaringIntentRepository.IntentRepository.FindById | declaring/app/intents/repository.py:36-49 | the converted intent with that id, or None |
| DeclaringIntentRepository.IntentRepository.Create | declaring/app/intents/repository.py:51-65 | the counter becomes the id of the appended row and is incremented; facts untouched |
| DeclaringIntentRepository.IntentRepository.Update | declaring/app/intents/repository.py:67-85 | a present id's slot is replaced in place by the argument with the id and stored creation time forced; an absent id changes nothing and gives None |
| DeclaringIntentRepository.IntentRepository.Delete | declaring/app/intents/repository.py:87-103 | true exactly for a present id, which is removed together with all its facts; otherwise nothing changes |
| DeclaringIntentRepository.IntentRepository.AddFact | declaring/app/intents/repository.py:105-126 | an absent intent raises "Intent with id … not found" with no write; otherwise the fact gets the fact counter as id and the given intent id |
| DeclaringIntentRepository.IntentRepository.AppendFact | declaring/app/intents/repository.py:121-126 | the write of `add_fact`: the appended row and the incremented fact counter |
| DeclaringIntentRepository.IntentRepository.FindFactsByIntentId | declaring/app/intents/repository.py:128-139 | the intent's facts, converted, in insertion order |
| DeclaringIntentRepository.IntentRepository.FindFactById | declaring/app/intents/repository.py:141-155 | the fact matching both ids, or None |
| DeclaringIntentRepository.IntentRepository.UpdateFact | declaring/app/intents/repository.py:157-177 | the slot matching both ids is replaced, keeping id, intent id and creation time; other facts untouched; no match changes nothing |
| DeclaringIntentRepository.IntentRepository.RemoveFact | declaring/app/intents/repository.py:179-194 | true exactly when a slot matches both ids, and that slot is removed; otherwise nothing changes |
| DeclaringIntentRepository.ConvertFacts | declaring/app/intents/repository.py:139 | the selected rows converted in order, the first failure raising |
| DeclaringUserRepository.UserRowOf | declaring/app/users/repository.py:59-117 | converting a user to a row with a forced id and creation time and back gives the user with those two fields replaced |
| DeclaringUserRepository.UserIndex | declaring/app/users/repository.py:44-96 | the first slot with the id, none exactly when no row has it |
| DeclaringUserRepository.AllUsers | declaring/app/users/repository.py:32 | every row converted, in insertion order |
| DeclaringUserRepository.CounterIsFresh | declaring/app/users/repository.py:21-61 | the counter is no id in use, and a row created with it keeps ids increasing: a deleted id is never reassigned |
| DeclaringUserRepository.FindAfterAppend | declaring/app/users/repository.py:44-63 | after a create, the new id finds the created user |
| DeclaringUserRepository.DeleteLeavesNone | declaring/app/users/repository.py:95-98 | removing the found slot removes exactly that id and keeps the table valid |
| DeclaringUserRepository.RemoveDropsId | declaring/app/users/repository.py:97 | removing a slot removes exactly its id |
| DeclaringUserRepository.SameIdsSameIndex | declaring/app/users/repository.py:79-81 | a slot update under the same id leaves every lookup where it was |
| DeclaringUserRepository.FindAfterUpdate | declaring/app/users/repository.py:76-82 | after an update, the id finds the argument with the stored id and creation time |
| DeclaringUserRepository.UserRepository.constructor | declaring/app/users/repository.py:21-23 | empty table, counter 1 |
| DeclaringUserRepository.UserRepository.FindAll | declaring/app/users/repository.py:25-32 | every stored user in insertion order |
| DeclaringUserRepository.UserRepository.FindById | declaring/app/users/repository.py:34-47 | the user with that id, or None |
| DeclaringUserRepository.UserRepository.Create | declaring/app/users/repository.py:49-63 | the counter becomes the id of the appended row and is incremented |
| DeclaringUserRepository.UserRepository.Update | declaring/app/users/repository.py:65-83 | a present id's slot is replaced in place, keeping id and stored creation time; an absent id gives None and changes nothing |
| DeclaringUserRepository.UserRepository.Delete | declaring/app/users/repository.py:85-99 | true exactly for a present id, whose slot is removed; otherwise nothing changes |
| DeclaringItemStore.ItemRowOf | declaring/app/items/repository.py:157-177 | converting an item to a row with a forced id and creation time and back gives the item with those fields replaced |
| DeclaringItemStore.ItemIndex | declaring/app/items/repository.py:53-90 | the slot of the row with the id, none exactly when no row has it |
| DeclaringItemStore.AllItems | declaring/app/items/repository.py:39-41 | every row converted, in table order |
| DeclaringItemStore.SearchResults | declaring/app/items/repository.py:139-155 | exactly the converted rows that pass all given filters, and nothing else; the name filter is the `LIKE` match of `%name%` |
| DeclaringItemStore.LikeAnyRun | declaring/app/items/repository.py:141-142 | a lone `%` matches every string |
| DeclaringItemStore.LikePrefix | declaring/app/items/repository.py:141-142 | a name without wildcards followed by `%` matches exactly the strings starting with it |
| DeclaringItemStore.LikeLiteralIsContains | declaring/app/items/repository.py:141-142 | a name without `%` or `_` between two `%` matches exactly the strings containing it, so such a search is a substring test |
| DeclaringItemStore.UnderscoreIsWildcard | declaring/app/items/repository.py:141-142 | a search for "_" finds an item named "abc", which does not contain "_" |
| DeclaringItemStore.EmptyQueryKeepsAll | declaring/app/items/repository.py:139-155 | with no filter the search returns every item |
| DeclaringItemStore.CounterIsFresh | declaring/app/items/repository.py:69-72 | the next id is no id in use, and the created row keeps ids increasing |
| DeclaringItemStore.FindAfterAppend | declaring/app/items/repository.py:53-73 | after a create, the new id finds the created item |
| DeclaringItemStore.DeleteLeavesNone | declaring/app/items/repository.py:116-118 | deleting leaves no item with the id and keeps the table valid |
| DeclaringItemStore.FindAfterUpdate | declaring/app/items/repository.py:86-102 | after an update, the id finds the argument's fields with the stored id and creation time |
| DeclaringItemStore.ItemStore.constructor | declaring/app/items/repository.py:23-30 | an empty table whose first id is 1 |
| DeclaringItemStore.ItemStore.FindAll | declaring/app/items/repository.py:32-41 | every item in table order |
| DeclaringItemStore.ItemStore.FindById | declaring/app/items/repository.py:43-57 | the item with that id, or None |
| DeclaringItemStore.ItemStore.Create | declaring/app/items/repository.py:59-73 | the table assigns the next id to the appended row |
| DeclaringItemStore.ItemStore.Update | declaring/app/items/repository.py:75-102 | name, description, price and availability are rewritten, id and creation time kept; an absent id gives None and changes nothing |
| DeclaringItemStore.ItemStore.Delete | declaring/app/items/repository.py:104-118 | true exactly for a present id, whose row is removed |
| DeclaringItemStore.ItemStore.Search | declaring/app/items/repository.py:120-155 | the items passing the filters, in table order |
| DeclaringUserRepository.UserOfRow | declaring/app/users/repository.py:101-108 | reading a stored user copies every field and always gives it the stored id |
| DeclaringItemStore.ItemOfRow | declaring/app/items/repository.py:157-166 | reading a stored item copies every field and always gives it the stored id |
| DeclaringIntentService.ApplyField | declaring/app/intents/service.py:109-196 | each setter assigns exactly its own field and leaves every other field, the id, the timestamps and the facts as they were |
| DeclaringIntentService.GetOfRead | declaring/app/intents/service.py:199-228 | every field a re-read returns is the stored field as the intent constructor normalises it |
| DeclaringIntentService.NormalisedOfNormal | declaring/app/intents/service.py:199-228 | normalising a field of an already constructed intent only turns an optional empty string into absent |
| DeclaringIntentService.SetterAccepts | declaring/app/intents/service.py:199-228 | the setter's written row reads back exactly when its value is acceptable: only a blank required field makes the read fail |
| DeclaringIntentService.SetterSetsField | declaring/app/intents/service.py:199-228 | the field a setter names reads back as the assigned value, normalised |
| DeclaringIntentService.SetterKeepsOthers | declaring/app/intents/service.py:199-228 | every other field of the intent reads back as it was before the setter |
| DeclaringIntentService.SetterEffect | declaring/app/intents/service.py:199-228 | for a stored intent, a setter either reads back with its field set and all other fields, the id and the timestamps unchanged, or makes the read raise |
| DeclaringIntentService.NormalRowConverts | declaring/app/intents/service.py:25-72 | the stored row of a created intent always converts back to an intent |
| DeclaringIntentService.CreateIntent | declaring/app/intents/service.py:25-72 | an invalid request raises before the repository is touched and publishes nothing; otherwise one row with the next id is appended and one creation event carries the id, name, description and output format |
| DeclaringIntentService.UpdateIntentField | declaring/app/intents/service.py:199-228 | a missing intent gives None with no write and no event; otherwise the slot is rewritten with the setter applied, and an update event naming the field is published exactly when the written intent reads back |
| DeclaringIntentService.WriteField | declaring/app/intents/service.py:217-228 | the write half of the field update: rewrite the slot, publish iff the result reads back |
| DeclaringIntentService.AddFactToIntent | declaring/app/intents/service.py:231-263 | a missing intent gives None and a blank value raises, both with no write and no event; otherwise one fact with the next fact id is appended and the event carries its id and the stripped value; the fact id counter moves only when a fact is stored |
| DeclaringIntentService.UpdateFactValue | declaring/app/intents/service.py:266-303 | a missing intent or fact gives None with no write; otherwise the fact's slot is rewritten and the update event is published exactly when the written fact reads back |
| DeclaringIntentService.WriteFactValue | declaring/app/intents/service.py:293-303 | the write half of the fact update: rewrite the slot, publish iff it reads back |
| DeclaringIntentService.RemoveFactFromIntent | declaring/app/intents/service.py:306-339 | False without a removal when the intent or the fact is missing; otherwise the fact is removed and one removal event is published |
| DeclaringUserService.ApplyUserUpdate | declaring/app/users/service.py:110-114 | only a supplied username or email overwrites; the id and creation time are kept |
| DeclaringUserService.UserUpdateLaws | declaring/app/users/service.py:110-114 | an update that supplies nothing changes nothing, and applying the same update twice equals applying it once |
| DeclaringUserService.GetAllUsers | declaring/app/users/service.py:18-28 | the repository's users, in storage order, unchanged |
| DeclaringUserService.GetUser | declaring/app/users/service.py:31-49 | the repository's answer for the id, unchanged |
| DeclaringUserService.CreateUser | declaring/app/users/service.py:52-88 | one row with the next id is appended and one creation event carries the stored id, username and email |
| DeclaringUserService.UpdateUser | declaring/app/users/service.py:91-131 | a missing user gives None with no write and no event; otherwise the supplied fields overwrite, the slot is rewritten, and one event carries the updated values |
| DeclaringUserService.DeleteUser | declaring/app/users/service.py:134-160 | the result is True exactly when the user existed; then the row is removed and one deletion event published, otherwise nothing changes |
| IntentionsUserService.GetAllUsers | intentions/app/users/service.py:18-31 | every stored user, in storage order, from the repository passed in |
| IntentionsUserService.GetUser | intentions/app/users/service.py:34-53 | a user is returned exactly when one with that id is stored, and it carries that id |
| IntentionsUserService.CreateUser | intentions/app/users/service.py:56-92 | the asserted id is always set and fresh; one row is appended and one creation event carries the id, username and email |
| IntentionsUserService.UpdateUser | intentions/app/users/service.py:95-138 | a user is returned exactly when the id is stored; a missing user means no write and no event; otherwise only the supplied fields change, the id and creation time are kept, and one event carries the stored values |
| IntentionsUserService.DeleteUser | intentions/app/users/service.py:141-168 | True exactly when the user existed; then only that id disappears, one row fewer remains and one deletion event is published; otherwise nothing changes |
| DeclaringItemService.ApplyItemUpdate | declaring/app/items/service.py:129-137 | only a supplied name, description, price or availability overwrites; the id and creation time are kept |
| DeclaringItemService.ItemUpdateLaws | declaring/app/items/service.py:129-137 | no update clears a description, an empty request changes nothing, and repeating a request changes nothing more |
| DeclaringItemService.GetAllItems | declaring/app/items/service.py:20-34 | the store's items in storage order, unchanged |
| DeclaringItemService.GetItem | declaring/app/items/service.py:37-57 | the store's answer for the id, unchanged |
| DeclaringItemService.CreateItem | declaring/app/items/service.py:60-105 | one row with the next id is appended, the item is then found under that id, and one creation event carries the id, name, price and availability |
| DeclaringItemService.UpdateItem | declaring/app/items/service.py:108-155 | a missing item gives None with no write and no event; otherwise the supplied fields overwrite, a later read returns the result, and one event carries the updated values |
| DeclaringItemService.DeleteItem | declaring/app/items/service.py:158-186 | True exactly when the item existed; then its row is removed and one deletion event published, otherwise nothing changes |
| DeclaringItemService.SearchItems | declaring/app/items/service.py:189-223 | the four filters reach the store unchanged and its answer is the result |
| DeclaringIntentService.GetAllIntents | declaring/app/intents/service.py:75-85 | the repository's listing, which succeeds exactly when every stored row converts |
| DeclaringIntentService.GetIntent | declaring/app/intents/service.py:88-106 | the repository's answer, None for an absent id |
| IntentionsStages.AspectDomain | intentions/app/intents/service.py:38-39 | an aspect is built exactly when its name is not blank, owned by the intent, with stripped text and both timestamps set to now |
| IntentionsStages.InputDomain | intentions/app/intents/service.py:42-51 | an input is built exactly when its name and description are not blank, with stripped text and its own required flag and aspect |
| IntentionsStages.ChoiceDomain | intentions/app/intents/service.py:54-64 | a choice is built exactly when its name and description are not blank, its optional text stripped |
| IntentionsStages.PitfallDomain | intentions/app/intents/service.py:67-74 | a pitfall is built exactly when its description is not blank |
| IntentionsStages.AssumptionDomain | intentions/app/intents/service.py:77-84 | an assumption is built exactly when its description is not blank and its confidence is absent or one of the allowed values |
| IntentionsStages.QualityDomain | intentions/app/intents/service.py:87-95 | a quality is built exactly when its criterion is not blank and its priority is absent or one of the allowed values |
| IntentionsStages.OwnedAll | intentions/app/intents/service.py:113-124 | rows that all belong to one intent and type are exactly that intent's rows of the type |
| IntentionsStages.OwnedNone | intentions/app/intents/service.py:113-124 | rows none of which belong to an intent and type leave that pair empty |
| IntentionsStages.OwnedWithoutKind | intentions/app/intents/service.py:233-263 | deleting every entity of one type of one intent empties that pair and leaves every other intent and type as it was |
| IntentionsStages.OwnedAdded | intentions/app/intents/service.py:113-124 | the rows a stage adds hold exactly the entities it built, all of its type and its intent, and nothing of any other pair |
| IntentionsStages.StepReplaceKeeps | intentions/app/intents/service.py:233-263 | a replacing stage leaves every other intent and type as it was; an absent list or an earlier raise means no change at all |
| IntentionsStages.StepReplaceSets | intentions/app/intents/service.py:233-263 | a replacing stage that runs leaves its type holding exactly what was built before the first raise, and that raise is the error |
| IntentionsStages.StepAppendKeeps | intentions/app/intents/service.py:113-124 | a creation stage leaves every other intent and type as it was; an absent list or an earlier raise means no change |
| IntentionsStages.StepAppendExtends | intentions/app/intents/service.py:113-124 | a creation stage that runs appends what it built after what its type already held |
| IntentionsStages.RunReplaceStopped | intentions/app/intents/service.py:233-263 | once a stage has raised, the later stages change nothing |
| IntentionsStages.RunAppendStopped | intentions/app/intents/service.py:113-124 | once a creation stage has raised, the later ones change nothing |
| IntentionsStages.RunReplaceError | intentions/app/intents/service.py:233-263 | the replacement ends without error exactly when every entity of every supplied list builds |
| IntentionsStages.RunAppendError | intentions/app/intents/service.py:113-124 | the creation ends without error exactly when every entity of every supplied list builds |
| IntentionsStages.RunReplaceKeeps | intentions/app/intents/service.py:233-263 | a type with no supplied list, and every type of every other intent, is left as it was |
| IntentionsStages.RunAppendKeeps | intentions/app/intents/service.py:113-124 | during creation, a type with no supplied list, and every other intent, is left as it was |
| IntentionsStages.RunReplaceSets | intentions/app/intents/service.py:233-263 | after a replacement without error, each supplied type holds exactly what its list built, in order |
| IntentionsStages.RunAppendSets | intentions/app/intents/service.py:113-124 | after a creation without error, each supplied type holds what it held before followed by what its list built |
| IntentionsStages.ArticulationStagesShape | intentions/app/intents/service.py:233-263 | the replacement runs six stages, one per type, inputs first and aspects last, each running exactly when its list is supplied |
| IntentionsStages.CreationStagesShape | intentions/app/intents/service.py:113-124 | creation runs six stages, one per type, aspects first, each running exactly when its list is supplied |
| IntentionsStages.ArticulationOutcome | intentions/app/intents/service.py:212-267 | a replacement leaves an unsupplied type and every other intent unchanged, gives each supplied type exactly what it built when nothing raised, and raises exactly when some supplied entity is invalid |
| IntentionsStages.CreationOutcome | intentions/app/intents/service.py:98-137 | for a new intent, each supplied type holds exactly what it built when nothing raised, an unsupplied type holds nothing, and creation raises exactly when some entity is invalid |
| IntentionsStore.Owned | intentions/app/intents/repository.py:201-205 | the rows returned are exactly the stored rows owned by the intent and of that type |
| IntentionsStore.OwnedAppend | intentions/app/intents/repository.py:201-205 | the owned rows of two tables one after the other are their owned rows one after the other |
| IntentionsStore.OwnedIds | intentions/app/intents/repository.py:201-205 | the ids of the owned rows, one per row, in table order |
| IntentionsStore.ReadAspectRebuilds | intentions/app/intents/repository.py:237-245 | reading a stored aspect runs its constructor again, which succeeds on every row the store holds and drops a description left as "" |
| IntentionsStore.ReadInputRebuilds | intentions/app/intents/repository.py:318-329 | reading a stored input runs its constructor again, which succeeds and drops a format left as "" |
| IntentionsStore.ReadChoiceRebuilds | intentions/app/intents/repository.py:406-418 | reading a stored choice runs its constructor again, which succeeds and drops optional texts left as "" |
| IntentionsStore.ReadPitfallRebuilds | intentions/app/intents/repository.py:493-502 | reading a stored pitfall runs its constructor again, which succeeds and drops a mitigation left as "" |
| IntentionsStore.ReadAssumptionRebuilds | intentions/app/intents/repository.py:584-595 | reading a stored assumption runs its constructor again, which succeeds and drops a confidence left as "" |
| IntentionsStore.ReadQualityRebuilds | intentions/app/intents/repository.py:668-678 | reading a stored quality runs its constructor again, which succeeds and drops a measurement or priority left as "" |
| IntentionsStore.ReadExampleRebuilds | intentions/app/intents/repository.py:752-762 | reading a stored example runs its constructor again, which succeeds and drops an explanation or source left as "" |
| IntentionsStore.ReadPromptRebuilds | intentions/app/intents/repository.py:815-823 | reading a stored prompt runs its constructor again, which gives it back under the row's id and owner |
| IntentionsStore.ReadInsightRebuilds | intentions/app/intents/repository.py:945-957 | reading a stored insight runs its constructor again, which succeeds and drops a source type or status left as "" |
| IntentionsStore.StoredEmptyDescriptionReadsNone | intentions/app/intents/repository.py:237-245 | a stored aspect whose description is "" reads back with no description |
| IntentionsStore.IntentIndex | intentions/app/intents/repository.py:61-80 | the first slot holding the id, and none exactly when no stored intent has it |
| IntentionsStore.FindIntent | intentions/app/intents/repository.py:61-80 | an absent id reads as None; a present one reads as an intent with that id, or as the constructor's error for a stored blank name or description |
| IntentionsStore.RowIntentNormal | intentions/app/intents/repository.py:143-168 | a stored row with stripped non-blank name and description reads back with those fields and its id |
| IntentionsStore.ChildrenNotOf | intentions/app/intents/db_models.py:37-45 | the child rows kept by deleting an intent are exactly those owned by another intent |
| IntentionsStore.IntentsNot | intentions/app/intents/repository.py:134-141 | the intent rows kept by a delete are exactly those with another id |
| IntentionsStore.OutputsNotOf | intentions/app/intents/db_models.py:179 | the outputs kept are exactly those whose prompt was not deleted |
| IntentionsStore.WithoutIds | intentions/app/intents/repository.py:225-235 | the rows kept by deleting ids of one type of one intent are exactly the other rows |
| IntentionsStore.WithoutKind | intentions/app/intents/service.py:233-263 | the rows kept once all of one type of one intent is deleted are exactly the other rows |
| IntentionsStore.WithoutIdsStep | intentions/app/intents/service.py:233-263 | deleting ids one at a time is deleting the set of them |
| IntentionsStore.WithoutIdsNone | intentions/app/intents/service.py:233-263 | deleting no ids keeps every row |
| IntentionsStore.WithoutIdsCovering | intentions/app/intents/service.py:233-263 | deleting the ids of every row of a type, as the replacement does, deletes the whole type |
| IntentionsStore.RowsFor | intentions/app/intents/repository.py:180-187 | newly added rows get consecutive ids from the counter, one per entity, in order |
| IntentionsStore.MaxVersion | intentions/app/intents/repository.py:786-795 | no prompt of the intent has a version above it, and it is never negative |
| IntentionsStore.MaxVersionAttained | intentions/app/intents/repository.py:786-795 | a positive maximum is the version of one of the intent's prompts |
| IntentionsStore.NextPromptVersion | intentions/app/intents/repository.py:786-795 | the next version is at least 1 and above every stored version of the intent's prompts |
| IntentionsStore.FirstPromptVersion | intentions/app/intents/repository.py:786-795 | an intent without prompts starts at version 1 |
| IntentionsStore.FindChild | intentions/app/intents/repository.py:189-199 | the row found has the id, the type and the owner asked for, and none is found exactly when no such row is stored |
| IntentionsStore.OutputPrompt | intentions/app/intents/service.py:327-329 | the prompt of a stored output, and none exactly when no output has that id |
| IntentionsStore.FreshIntentIsBare | intentions/app/intents/repository.py:102-107 | a newly created intent owns no rows of any type |
| IntentionsStore.FreshIntentsAreBare | intentions/app/intents/repository.py:102-107 | a newly created intent reads back with every collection empty |
| IntentionsStore.AppendKeepsTables | intentions/app/intents/repository.py:102-107 | a row under the counter's id is new, and the tables stay consistent once the counter moves on |
| IntentionsStore.RewriteKeepsTables | intentions/app/intents/repository.py:109-132 | rewriting an intent's row under the same id keeps the tables consistent and the row at the same place |
| IntentionsStore.DeleteKeepsValid | intentions/app/intents/db_models.py:37-45 | removing an intent with what it owns, and outputs, keeps every child attached to a stored intent |
| IntentionsStore.IntentStore.constructor | intentions/app/intents/repository.py:58-59 | an empty store whose counter starts at 1 |
| IntentionsStore.IntentStore.FindById | intentions/app/intents/repository.py:61-80 | the stored intent with every collection attached, as the read function defines |
| IntentionsStore.IntentStore.Create | intentions/app/intents/repository.py:102-107 | one row with a fresh id is appended and the intent reads back with that id and empty collections |
| IntentionsStore.IntentStore.Update | intentions/app/intents/repository.py:109-132 | a missing id changes nothing and gives None; otherwise only name and description are written and the result is the stored intent read back |
| IntentionsStore.IntentStore.Delete | intentions/app/intents/repository.py:134-141 | True exactly when the intent existed; then it goes with everything it owns and the outputs of its prompts; otherwise nothing changes |
| IntentionsStore.IntentStore.AddChild | intentions/app/intents/repository.py:973-978 | a missing intent gives the "Intent with id … not found" error with no write; otherwise one row, holding the child as its constructor built it, with the next id owned by the intent |
| IntentionsStore.IntentStore.DeleteChild | intentions/app/intents/repository.py:225-235 | removes the rows of that type with that id and owner, and reports whether one existed |
| IntentionsStore.IntentStore.NextVersion | intentions/app/intents/repository.py:786-795 | one more than the highest stored version of the intent's prompts |
| IntentionsStore.IntentStore.FindChildById | intentions/app/intents/repository.py:189-199 | the row of that type with that id, scoped to the intent |
| IntentionsStore.IntentStore.PromptIdForOutput | intentions/app/intents/service.py:327-329 | the prompt a stored output belongs to, or None for an unknown output |
| IntentionsStore.IntentStore.AddOutput | intentions/app/intents/repository.py:980-985 | no prompt with that id gives the "Prompt with id … not found" error; otherwise one output row with the next id |
| IntentionsStore.ReadAll | intentions/app/intents/repository.py:99-100 | one read per stored intent row, in table order |
| IntentionsStore.AllIntents | intentions/app/intents/repository.py:82-100 | the listing succeeds exactly when every row reads back, then holds one intent per row in table order; otherwise it is the error of a failing row |
| IntentionsStore.AllIntentsIds | intentions/app/intents/repository.py:82-100 | each listed intent carries the id of its stored row |
| IntentionsStore.IntentStore.ListAll | intentions/app/intents/repository.py:82-100 | the loop over the rows produces the listing, stopping at the first row that fails to read |
| IntentionsService.AppendRows | intentions/app/intents/service.py:113-124 | one add loop: the entities built before the first raise are stored in order with consecutive ids, and that raise is the result |
| IntentionsService.OkPrefixIs | intentions/app/intents/service.py:113-124 | the values a loop has collected before the first raise are the ok prefix of the results |
| IntentionsService.RunFrom | intentions/app/intents/service.py:113-124 | a run of stages from one on is that stage followed by the rest |
| IntentionsService.AppendSix | intentions/app/intents/service.py:113-124 | the six creation loops run one after another, in order |
| IntentionsService.ReplaceSix | intentions/app/intents/service.py:233-263 | the six replacement blocks run one after another, in order |
| IntentionsService.AppendStage | intentions/app/intents/service.py:113-124 | one creation loop, skipped for an absent list, changes the store as its stage function says |
| IntentionsService.DeleteListed | intentions/app/intents/service.py:235-236 | the delete loop removes exactly the listed ids of that type and intent and nothing else |
| IntentionsService.ListedSetStep | intentions/app/intents/service.py:235-236 | one more listed id adds that id to the ids deleted so far |
| IntentionsService.ListedSetAll | intentions/app/intents/service.py:235-236 | the loop starts with no id deleted and ends with all listed ids deleted |
| IntentionsService.ListedCoversKind | intentions/app/intents/service.py:233-263 | deleting every id of a type listed in the intent as read at the start removes the whole type, as long as that type has not changed since |
| IntentionsService.ReplaceStage | intentions/app/intents/service.py:233-263 | one replacement block: for a supplied list, the type is emptied and refilled by the list, other types keep what the start-of-call read saw |
| IntentionsService.ReplaceThree | intentions/app/intents/service.py:233-263 | three replacement blocks in a row, stopping at the first raise |
| IntentionsService.ArticulationKinds | intentions/app/intents/service.py:233-263 | the six blocks handle inputs, choices, pitfalls, assumptions, qualities and aspects, in that order |
| IntentionsService.AddArticulation | intentions/app/intents/service.py:113-124 | the six add loops of creation change the store exactly as the creation run says |
| IntentionsService.ReplaceArticulation | intentions/app/intents/service.py:233-263 | the six blocks of the replacement change the store exactly as the replacement run says |
| IntentionsService.RequestedIntentIs | intentions/app/intents/service.py:98-111 | a create request is refused for a blank name, then for a blank description, with the model's message; otherwise it holds the stripped name and description and owns nothing |
| IntentionsService.FreshRowFound | intentions/app/intents/repository.py:102-107 | a row appended under a fresh id is the one found for that id |
| IntentionsService.FreshRowReadsBack | intentions/app/intents/repository.py:102-107 | a freshly stored intent is found and reads back with its id |
| IntentionsService.CreateIntent | intentions/app/intents/service.py:98-137 | a refused request writes nothing; otherwise the intent row and its articulation are written, a raise in a loop leaves the earlier rows and gives the error, and on success one creation event is published and the intent is read back with the stripped fields |
| IntentionsService.CreateArticulated | intentions/app/intents/service.py:108-124 | the intent row is stored under the counter's id, then the creation run is applied to the children |
| IntentionsService.ListIntents | intentions/app/intents/service.py:140-143 | the store's listing, one intent per row, each with its stored id |
| IntentionsService.DeleteIsolated | intentions/app/intents/service.py:146-157 | a deleted intent is no longer found, and nothing owned by another intent moves |
| IntentionsService.DeleteIntent | intentions/app/intents/service.py:146-157 | false with no change and no event when the intent is missing; otherwise the intent, everything it owns and the outputs of its prompts are deleted and one deletion event is published |
| IntentionsService.GetIntent | intentions/app/intents/service.py:160-171 | the stored intent with that id, or None for an absent id |
| IntentionsService.FieldWriteReadsBack | intentions/app/intents/service.py:174-209 | after a name or description write, the read refuses a blank value with that field's error, and otherwise gives the value stripped with the other field unchanged |
| IntentionsService.IndexAfterWrite | intentions/app/intents/repository.py:109-132 | rewriting a found row under the same id keeps it found there |
| IntentionsService.NameWriteReadsBack | intentions/app/intents/service.py:174-178 | a blank name reads back as the name error; any other name reads back stripped, the description unchanged |
| IntentionsService.DescriptionWriteReadsBack | intentions/app/intents/service.py:180-189 | a blank description reads back as the description error; any other reads back stripped, the name unchanged |
| IntentionsService.WrittenRowIs | intentions/app/intents/repository.py:109-132 | the row `update` writes for the intent with one field set is the stored row with that field replaced |
| IntentionsService.FoundFields | intentions/app/intents/repository.py:143-168 | a found intent carries the stored name and description, stripped |
| IntentionsService.UpdateIntentField | intentions/app/intents/service.py:191-209 | a missing intent changes nothing and publishes nothing; otherwise the field is written, the result is the re-read, and the update event naming the field is published exactly when the read succeeds |
| IntentionsService.WriteIntentField | intentions/app/intents/service.py:199-209 | the write half of the field update, once the intent has been read |
| IntentionsService.UpdateIntentArticulation | intentions/app/intents/service.py:212-267 | a missing intent changes nothing; otherwise the replacement runs, a raise leaves what was written and publishes nothing, and on success one event is published and the intent is read back |
| IntentionsService.ChildrenDoNotAffectRead | intentions/app/intents/repository.py:143-168 | replacing an intent's children never changes whether, or as what, its name and description read back |
| IntentionsService.AddPrompt | intentions/app/intents/service.py:270-285 | a missing intent gives None and blank content raises, both with no write; otherwise one prompt is stored with a version above every earlier version of the intent, and one event carries its id and version |
| IntentionsService.AddOutput | intentions/app/intents/service.py:288-302 | blank content raises and an unknown prompt gives None, both with no write; otherwise one output is stored with the stripped content and one event is published |
| IntentionsService.PromptIds | intentions/app/intents/service.py:330 | the ids of the prompts an intent lists, one per prompt, in order |
| IntentionsService.PromptIdsOfIntent | intentions/app/intents/service.py:330-332 | an id is among the intent's listed prompt ids exactly when a prompt with that id is stored for the intent |
| IntentionsService.InsightSourceError | intentions/app/intents/service.py:318-332 | the source checks in order: a foreign or missing prompt, then assumption, then an unknown output or one whose prompt the intent does not list, each with its message; no error exactly when every supplied source belongs to the intent |
| IntentionsService.InsightSourceErrorAsWritten | intentions/app/intents/service.py:318-329 | the checks as written: the prompt and assumption checks as intended, then any supplied output reaches a repository operation that does not exist |
| IntentionsService.OutputSourceAlwaysFails | intentions/app/intents/service.py:326-329 | once the other checks pass, every supplied output id fails as written, even one of the intent's own outputs that the intended check accepts |
| IntentionsService.OutputSourceCounterexample | intentions/app/intents/service.py:326-332 | intent 1 with prompt 2 and output 3 of that prompt: the code as written fails, the intended check passes |
| IntentionsService.CheckInsightSources | intentions/app/intents/service.py:318-332 | the checks against the store give exactly the intended source error |
| IntentionsService.AddInsight | intentions/app/intents/service.py:305-347 | a missing intent gives None; a failing source check or an invalid insight raises, both with no write; otherwise one insight is stored and one event carries its id |
| IntentionsService.WriteInsight | intentions/app/intents/service.py:334-347 | the write of the insight, once the intent is found and the sources checked |
| DomainEvents.Serialized | declaring/app/shared/events.py:33-36 | a datetime attribute becomes its ISO string; every other value is kept as it is |
| DomainEvents.ToDict | declaring/app/shared/events.py:27-37 | the loop builds the dictionary the event's definition gives |
| DomainEvents.SerializedFields | declaring/app/shared/events.py:31-36 | one entry per attribute, in order, each value serialised |
| DomainEvents.EventDictShape | declaring/app/shared/events.py:27-37 | for distinct, non-reserved attribute names, the dictionary is the ISO timestamp, the event type, then each attribute in order with datetimes rendered |
| DomainEvents.NextKeyAbsent | declaring/app/shared/events.py:31-36 | each new attribute name is not yet in the dictionary, so the loop appends rather than overwrites |
| DomainEvents.SerializedSnoc | declaring/app/shared/events.py:31-36 | serialising one more attribute appends one entry |
| DomainEvents.EventDictHead | declaring/app/shared/events.py:29-32 | whatever the attributes, the first two entries are the ISO timestamp and the event type, and no value left is a datetime |
| DomainEvents.Failing | declaring/app/shared/events.py:79-94 | the handlers reported failed are exactly those that raise, in calling order |
| DomainEvents.EventBus.constructor | declaring/app/shared/events.py:47-48 | no handler is subscribed |
| DomainEvents.EventBus.Subscribe | declaring/app/shared/events.py:50-60 | the handler goes last in its type's list, created on first use; other types are untouched |
| DomainEvents.EventBus.Publish | declaring/app/shared/events.py:66-94 | every handler of the event's type is called in subscription order and the raising ones are skipped over, not stopping the loop |
| DomainEvents.SubscribeOrder | declaring/app/shared/events.py:58-60 | after subscribing, publishing calls the earlier handlers and then the new one, duplicates kept; other types are unchanged |
| DomainEvents.NoFailures | declaring/app/shared/events.py:79-94 | when no handler raises, none is reported failed |
| DomainEvents.AsDomainEvent | declaring/app/shared/events.py:16-25 | an event of a known class carries its type string, the clock reading and plain attribute names |
| DomainEvents.KnownEventDict | declaring/app/shared/events.py:27-37 | the dictionary of each known event is its timestamp, its type and then its own attributes in order |
| DomainEvents.EventLog.Publish | declaring/app/shared/events.py:66-76 | each publish appends exactly one event to what the bus has seen |
| ApiKeyAuth.VerifyApiKey | declaring/app/shared/dependencies.py:52-107 | off unless the flag reads "true" in any case; with it on, a missing key is a 500, a missing header a 401 with the Bearer challenge, and otherwise the bearer-stripped, trimmed header must equal the key |
| ApiKeyAuth.VerifyApiKeyOutcomes | declaring/app/shared/dependencies.py:52-107 | None exactly when the check is off; a key is returned only when it is the one configured; every failure except the missing configuration is a 401 with the Bearer challenge |
| ApiKeyAuth.ConfiguredKeyAccepted | declaring/app/shared/dependencies.py:93-97 | a configured key without surrounding whitespace is accepted both as "Bearer <key>" and bare |
| ApiKeyAuth.EmptyBearerRejected | declaring/app/shared/dependencies.py:100-105 | "Bearer " with nothing after it never authenticates |
| ApiKeyAuth.BearerToken | declaring/app/mcp/auth.py:48-51 | a header is well formed exactly when it splits into two words, the first "bearer" in any case; the token is the second word |
| ApiKeyAuth.VerifyMcpApiKey | declaring/app/mcp/auth.py:18-70 | with no key configured every request passes; otherwise a request passes exactly when the header's bearer token is the key; a missing header, a malformed header and a wrong key are each a 401 with its own message and the challenge |
| ApiKeyAuth.VerifyMcpApiKeyQuery | declaring/app/mcp/auth.py:73-99 | passes exactly when no key is configured or the query key equals it; otherwise a 401 without a challenge header |
| ApiKeyAuth.McpBearerAccepted | declaring/app/mcp/auth.py:48-61 | "Bearer <key>" with the scheme in any case authenticates a key without whitespace |
| ApiKeyAuth.McpThreePartsRejected | declaring/app/mcp/auth.py:48-58 | extra words after the token are a format error, not a key mismatch |
| ApiKeyAuth.MalformedRejected | declaring/app/mcp/auth.py:48-58 | any header that does not split into exactly two words is a format error |
| HttpProblems.StatusTitle | declaring/app/shared/exception_handlers.py:130-140 | "Error" exactly for a status outside the title table, and "Unauthorized" for 401 |
| HttpProblems.DetailOf | declaring/app/shared/exception_handlers.py:148 | the detail is present exactly when the exception's detail is non-empty, and then it is that detail |
| HttpProblems.HeadersOf | declaring/app/shared/exception_handlers.py:167 | headers are sent exactly when the exception has some, and then they are the exception's headers |
| HttpProblems.HttpExceptionHandler | declaring/app/shared/exception_handlers.py:115-168 | the response status and body status are the exception's; the title is the table's; the type is the status page URI; the instance is the path; detail and headers as the exception carries them |
| HttpProblems.AuthenticationExceptionHandler | declaring/app/shared/exception_handlers.py:68-112 | any status other than 401 is answered by the general handler; a 401 gets the fixed Unauthorized problem with the exception's headers |
| HttpProblems.AuthenticationAgrees | declaring/app/shared/exception_handlers.py:68-168 | the dedicated 401 branch answers exactly as the general handler would, so the two handlers agree on every exception |
| HttpProblems.ProblemTypeDecodes | declaring/app/shared/exception_handlers.py:141 | the type URI starts with the status page base and the status can be read back from the digits after it |
| HttpProblems.ProblemTypeInjective | declaring/app/shared/exception_handlers.py:141 | two different statuses never share a type URI |
| HttpProblems.FormatValidationErrors | declaring/app/shared/exception_handlers.py:35-45 | one formatted error per raw error, in order |
| HttpProblems.FieldNamesSplitBack | declaring/app/shared/exception_handlers.py:38 | when no location part contains a dot, the joined field name splits back into exactly the location parts |
| HttpProblems.ValidationExceptionHandler | declaring/app/shared/exception_handlers.py:13-65 | the response is a 422 carrying the raw errors unchanged, and one formatted error per raw error is logged, in order |
| DatabaseUrl.WithAsyncpg | declaring/app/shared/database.py:38-42 | a "postgresql://" or "postgres://" prefix is replaced by the asyncpg scheme with the rest kept; any other URL is unchanged |
| DatabaseUrl.GetDatabaseUrl | declaring/app/shared/database.py:25-45 | the rewritten URL exactly when a URL is set and the type, defaulting to sqlite and lowercased, is postgresql; the in-memory SQLite URL otherwise |
| DatabaseUrl.AsyncpgNotPlain | declaring/app/shared/database.py:38-41 | a rewritten URL starts with neither plain scheme |
| DatabaseUrl.WithAsyncpgIdempotent | declaring/app/shared/database.py:38-42 | the driver rewrite applied twice is the rewrite applied once |
| DatabaseUrl.GetDatabaseUrlStable | declaring/app/shared/database.py:25-45 | feeding the chosen URL back in with the same type chooses it again |
| DatabaseUrl.SqliteKept | declaring/app/shared/database.py:36-45 | the SQLite URL chosen again stays the SQLite URL, whatever the type |
| DatabaseUrl.PlainSchemesRewritten | declaring/app/shared/database.py:36-41 | in the PostgreSQL configuration, either plain scheme comes out on the asyncpg driver with the same host part |
| StructuredLogging.Format | declaring/app/shared/logging_config.py:18-70 | the loop over the record builds the line the field definition gives |
| StructuredLogging.LastWriter | declaring/app/shared/logging_config.py:54-60 | the last attribute that the loop writes under a key, and none exactly when no attribute is written there |
| StructuredLogging.CopyAttrsLookup | declaring/app/shared/logging_config.py:54-60 | a key reads as the last attribute written under it, otherwise as its starting value |
| StructuredLogging.CopyAttrsSlots | declaring/app/shared/logging_config.py:54-60 | the copy loop never removes or renames an existing key |
| StructuredLogging.BaseFieldsFirst | declaring/app/shared/logging_config.py:19-24 | every line starts with timestamp, level, logger and message, in that order |
| StructuredLogging.LogFieldsLookup | declaring/app/shared/logging_config.py:19-68 | every key of the line reads as the exception object, else the last copied attribute, else the base value; so an extra named timestamp, level or logger overrides the base value |
| StructuredLogging.NoDurationKey | declaring/app/shared/logging_config.py:57-58 | no line has a "duration" key |
| StructuredLogging.ExtraCopied | declaring/app/shared/logging_config.py:54-60 | an attribute outside the standard set and not private reaches the line under its own key, or "duration_seconds" for duration, unless a later one overwrites it |
| StructuredLogging.SkippedNotCopied | declaring/app/shared/logging_config.py:26-55 | a standard or private attribute never reaches the line, so the message always comes from the record's own text |
| StructuredLogging.RenamedKeysCopied | declaring/app/shared/logging_config.py:57-64 | the two keys the formatter writes itself are not standard attribute names |
| StructuredLogging.ExceptionPresence | declaring/app/shared/logging_config.py:63-68 | the exception object is present exactly when exc_info is set, absent an attribute of that name |
| McpOrigins.CleanOrigins | intentions/app/intents/mcp_http.py:28 | never more entries than comma-separated parts |
| McpOrigins.CleanOriginsMembers | intentions/app/intents/mcp_http.py:28 | an entry is in the parsed list exactly when it is non-empty and is the trimmed form of one of the parts |
| McpOrigins.CleanOriginsKeepClean | intentions/app/intents/mcp_http.py:28 | parts that are already non-empty and trimmed are kept as they are, in order |
| McpOrigins.AllowedOriginsRoundTrip | intentions/app/intents/mcp_http.py:24-28 | a non-empty list of clean origins written comma-separated parses back to the same list |
| McpOrigins.AllowedOriginsClean | intentions/app/intents/mcp_http.py:24-28 | every entry of the allowed list is non-empty and trimmed, whatever the setting |
| McpOrigins.ValidateOrigin | intentions/app/intents/mcp_http.py:31-51 | admitted exactly when the list holds the wildcard, or the origin is present and listed |
| McpOrigins.ValidateOriginStrict | declaring/app/intents/mcp_http.py:30-43 | the first backend's check: admitted exactly when the origin is present and listed |
| McpOrigins.GatesAgree | declaring/app/intents/mcp_http.py:171 | when the wildcard is absent or the whole list, the first backend's gate admits exactly what the second backend's check admits |
| McpOrigins.GatesDifferOnMixedWildcard | declaring/app/intents/mcp_http.py:171 | with the setting "*,site" the second backend admits a request without an origin and the first backend rejects it |
| McpOrigins.MixedWildcardParsed | intentions/app/intents/mcp_http.py:28 | the setting "*,site" parses to the wildcard followed by the site |
| JsonRpc.ErrorReplyShape | intentions/app/intents/mcp_http.py:114-122 | an error reply answers the request's id and carries exactly the code and data it was built with |
| JsonRpc.ToolsResult | intentions/app/intents/mcp_http.py:94-109 | the tools/list result has one entry per tool, in order |
| JsonRpc.CallResult | intentions/app/intents/mcp_http.py:125-138 | the tools/call result lists the contents in order and is not an error |
| JsonRpc.CheckEnvelope | intentions/app/intents/mcp_http.py:254-259 | a body passes exactly when it is an object whose "jsonrpc" member is the string "2.0", and then its members are kept |
| JsonRpc.AfterOrigin | intentions/app/intents/mcp_http.py:245-266 | unparsable JSON is a 400 naming the parse error, a bad envelope is a 400, no reply is 204, a reply is a 200 JSON body, and a raised HTTP error passes through |
| IntentsMcpHttp.HandleMcpRequest | intentions/app/intents/mcp_http.py:54-179 | no reply exactly for the initialized notification; every reply answers the request's id; an HTTP error is raised only when the tool itself raises one, and it passes through |
| IntentsMcpHttp.DispatchErrorCodes | intentions/app/intents/mcp_http.py:111-179 | -32601 for an unknown method, -32602 for a missing tool name and for invalid arguments (with their error list as data), -32603 for anything the tool raises (with its message as data) |
| IntentsMcpHttp.CallToolCodes | intentions/app/intents/mcp_http.py:111-151 | the tools/call branch answers -32602 without a name or with invalid arguments, -32603 on a failure, and no error code when the tool returns |
| IntentsMcpHttp.McpEndpoint | intentions/app/intents/mcp_http.py:226-266 | a rejected origin is a 403 before the body is looked at; otherwise body parsing, the envelope check and dispatch follow in that order |
| IntentsMcpHttp.EndpointReplies | intentions/app/intents/mcp_http.py:226-266 | a 204 exactly for an admitted, well-formed initialized notification; a 200 always holds a JSON-RPC reply to the request's id |
| DeclaringMcpHttp.HandleMcpRequest | declaring/app/intents/mcp_http.py:46-151 | no reply exactly for the initialized notification; every reply answers the request's id; an unknown method raises a 400 naming it |
| DeclaringMcpHttp.OnlyInternalErrors | declaring/app/intents/mcp_http.py:139-151 | every error this dispatcher answers with is -32603, with the rendering of what went wrong as data |
| DeclaringMcpHttp.DispatchersAgree | declaring/app/intents/mcp_http.py:60-151 | apart from a missing tool name, invalid arguments and an unknown method, the two backends' dispatchers give the same answer |
| DeclaringMcpHttp.DispatchersDiffer | declaring/app/intents/mcp_http.py:103-137 | in each of those three cases this backend raises a 400 or answers -32603 where the other answers -32602 or -32601 |
| DeclaringMcpHttp.McpEndpoint | declaring/app/intents/mcp_http.py:159-201 | a 403 exactly when the list is not the lone wildcard and the origin is not listed; otherwise the same parse, envelope and dispatch steps |
| DeclaringMcpHttp.EndpointReplies | declaring/app/intents/mcp_http.py:159-201 | a 204 exactly for an admitted, well-formed initialized notification; a 200 always holds a JSON-RPC reply to the request's id |
| McpSdkHttp.SequenceLength | intentions/app/intents/mcp_sdk_http.py:47 | the length of the well-formed UTF-8 sequence at the start, at most four bytes, or 0 when none starts there |
| McpSdkHttp.DecodedChar | intentions/app/intents/mcp_sdk_http.py:47 | the character a well-formed sequence encodes, ASCII exactly for one-byte sequences |
| McpSdkHttp.DecodeIgnore | intentions/app/intents/mcp_sdk_http.py:47 | decoding with errors ignored never lengthens the value |
| McpSdkHttp.AsciiDecodesAsItself | intentions/app/intents/mcp_sdk_http.py:47 | ASCII bytes decode as themselves |
| McpSdkHttp.UndecodableByteDropped | intentions/app/intents/mcp_sdk_http.py:47 | a byte that starts no sequence is dropped |
| McpSdkHttp.DecodeAsciiPrefix | intentions/app/intents/mcp_sdk_http.py:47 | ASCII bytes in front pass through unchanged |
| McpSdkHttp.DropBetween | intentions/app/intents/mcp_sdk_http.py:47 | an undecodable byte between ASCII text is dropped and nothing else changes |
| McpSdkHttp.StrayByteStillNamesJson | intentions/app/intents/mcp_sdk_http.py:47-57 | "application/" 0xFF "json" is read as naming JSON and is rewritten, though its bytes do not contain "application/json" |
| McpSdkHttp.FirstAccept | intentions/app/intents/mcp_sdk_http.py:44-48 | the first header from the start position whose lowercased name is "accept", or none when no such header follows |
| McpSdkHttp.Normalized | intentions/app/intents/mcp_sdk_http.py:37-61 | a scope that is not HTTP comes back unchanged; an HTTP scope keeps its type and other entries and always gets a header list |
| McpSdkHttp.NormalizeAcceptHeader | intentions/app/intents/mcp_sdk_http.py:37-61 | the copy, search, append or replace computes the normalised scope |
| McpSdkHttp.NormalizedHeaders | intentions/app/intents/mcp_sdk_http.py:41-61 | with no Accept header the combined one is appended after the others; otherwise only the first Accept header may change, and it changes exactly when the rewrite rule says so |
| McpSdkHttp.RewriteCases | intentions/app/intents/mcp_sdk_http.py:53-56 | on the value as decoded and lowercased: one naming both types is kept, one naming neither nor a wildcard is kept, one naming only one of them is replaced, and a `*/*` without both is replaced |
| McpSdkHttp.AcceptBothKept | intentions/app/intents/mcp_sdk_http.py:51-57 | the value written in is never rewritten again |
| McpSdkHttp.AcceptBothRead | intentions/app/intents/mcp_sdk_http.py:47-50 | the value written in decodes and lowercases to itself |
| McpSdkHttp.NormalizedIdempotent | intentions/app/intents/mcp_sdk_http.py:37-61 | normalising twice is normalising once |
| McpSdkHttp.FirstAcceptAt | intentions/app/intents/mcp_sdk_http.py:44-48 | an Accept header with none before it is the one found |
| McpSdkHttp.ResponseCollector.constructor | intentions/app/intents/mcp_sdk_http.py:81-83 | no status, no headers, no chunks |
| McpSdkHttp.ResponseCollector.Send | intentions/app/intents/mcp_sdk_http.py:85-91 | a start replaces status and headers, a body chunk is appended, any other message changes nothing |
| McpSdkHttp.ResponseCollector.ToResponse | intentions/app/intents/mcp_sdk_http.py:96-98 | the response is built from the collected state |
| McpSdkHttp.RequestHandler | intentions/app/intents/mcp_sdk_http.py:75-98 | the response is the one the collected messages determine |
| McpSdkHttp.LastStart | intentions/app/intents/mcp_sdk_http.py:87-89 | the position of the last response start, with no start after it, or none when there is no start |
| McpSdkHttp.Chunks | intentions/app/intents/mcp_sdk_http.py:90-91 | never more chunks than messages |
| McpSdkHttp.CollectAllMeaning | intentions/app/intents/mcp_sdk_http.py:85-91 | status and headers come from the last response start, absent without one; the chunks are every body chunk in order |
| McpSdkHttp.ChunksSnoc | intentions/app/intents/mcp_sdk_http.py:90-91 | a body message adds its chunk, a missing body adding the empty one; other messages add nothing |
| McpSdkHttp.FlattenAppend | intentions/app/intents/mcp_sdk_http.py:98 | joining two lists of chunks is joining each and concatenating |
| McpSdkHttp.ResponseMeaning | intentions/app/intents/mcp_sdk_http.py:96-98 | status 500 without a start or with a zero status, else the last start's status; the content is every chunk in order |
| McpSdkHttp.ContentInOrder | intentions/app/intents/mcp_sdk_http.py:90-98 | messages sent later add their content after the earlier messages' content |
| McpSdkHttp.ChunksAppend | intentions/app/intents/mcp_sdk_http.py:90-91 | the chunks of two runs of messages are the chunks of each, in order |
| McpSdkHttp.ResponseHeaderLookup | intentions/app/intents/mcp_sdk_http.py:89-97 | a header name reads as its last value in the last start; headers of earlier starts are dropped |
| ApiErrors.NewApiError | customer-ux/src/shared/api/apiError.js:6-11 | the name is "ApiError", status and data are as given, and a string message is kept |
| ApiErrors.FromResponse | customer-ux/src/shared/api/apiError.js:13-16 | the error carries the response's status and the body as data |
| ApiErrors.FromResponseMessage | customer-ux/src/shared/api/apiError.js:14 | the message is a truthy body message, else a truthy body error, else "<status> - <statusText>" |
| ApiErrors.NonObjectBodyGivesStatusLine | customer-ux/src/shared/api/apiError.js:14 | a body that is not an object always gives the status line |
| ApiErrors.StringMessageKept | customer-ux/src/shared/api/apiError.js:14 | a non-empty string message in the body is the error's message |
| ApiConfig.Config.constructor | customer-ux/src/shared/api/apiConfig.js:5-11 | the base URL, the JSON content-type header and the ten-second timeout |
| ApiConfig.GetDefaultHeaders | customer-ux/src/shared/api/apiConfig.js:17-27 | a new object holding a copy of the configured headers |
| ApiConfig.ChangeDefaultHeaders | customer-ux/src/shared/api/apiConfig.js:18 | changing the returned headers leaves the configuration's headers as they were |
| ApiConfig.DefaultHeadersCopied | customer-ux/src/shared/api/apiConfig.js:7-9 | the copied default headers are exactly the JSON content type |
| HttpClient.Call | reacting/src/shared/api/httpClient.js:16 | the URL is the base URL followed by the endpoint |
| HttpClient.NetworkError | reacting/src/shared/api/httpClient.js:50-55 | status 0, data null, and the failure's message or "Network request failed" when it has none |
| HttpClient.SentHeaderLookup | reacting/src/shared/api/httpClient.js:18-24 | a header passed with the call wins over a default of the same name; every other default is sent |
| HttpClient.OptionsPassThrough | reacting/src/shared/api/httpClient.js:18-24 | every option other than the headers reaches the fetch unchanged |
| HttpClient.ResolvedMeaning | reacting/src/shared/api/httpClient.js:26-43 | the promise resolves exactly for an ok response whose body could be read, with the parsed JSON for a JSON content type and the text otherwise |
| HttpClient.RejectedMeaning | reacting/src/shared/api/httpClient.js:26-56 | every rejection is an ApiError; an error response keeps its status and body; a network failure or an unreadable body has status 0, no data and a non-empty message |
| HttpClient.VerbsForced | reacting/src/shared/api/httpClient.js:62-99 | get and del send their own method whatever the caller asked; post and put send their method and serialised body and keep the other options |
| HttpClient.VerbSent | reacting/src/shared/api/httpClient.js:62-99 | the method set by a helper is the one sent, with the body when there is one, and other options pass through |
| ItemsApi.CreateItemSends | reacting/src/features/items/api/itemsApi.js:14-16 | a POST of the serialised item to the collection, settled as the client settles it |
| ItemsApi.GetItemsSends | reacting/src/features/items/api/itemsApi.js:22-24 | a GET of the collection, settled as the client settles it |
| ItemsApi.GetItemByIdSends | reacting/src/features/items/api/itemsApi.js:31-33 | a GET of the item's URL, settled as the client settles it |
| ItemsApi.UpdateItemSends | reacting/src/features/items/api/itemsApi.js:41-43 | a PUT of the serialised item to the item's URL, settled as the client settles it |
| ItemsApi.DeleteItemSends | reacting/src/features/items/api/itemsApi.js:50-52 | a DELETE of the item's URL, settled as the client settles it |
| CreateItemHook.FailureText | reacting/src/features/items/hooks/useCreateItem.js:30 | never empty; the error's own message when it has one |
| CreateItemHook.UseCreateItem.constructor | reacting/src/features/items/hooks/useCreateItem.js:11-13 | not loading, no error, no data |
| CreateItemHook.UseCreateItem.Begin | reacting/src/features/items/hooks/useCreateItem.js:21-23 | loading, with error and data cleared |
| CreateItemHook.UseCreateItem.Finish | reacting/src/features/items/hooks/useCreateItem.js:25-34 | a success stores and returns the data; a failure stores the message and returns null; loading is cleared either way |
| CreateItemHook.UseCreateItem.Create | reacting/src/features/items/hooks/useCreateItem.js:20-35 | one create is the start followed by the end, applied to the API call's outcome |
| CreateItemHook.UseCreateItem.Reset | reacting/src/features/items/hooks/useCreateItem.js:40-44 | back to the initial state |
| CreateItemHook.CreateOutcome | reacting/src/features/items/hooks/useCreateItem.js:20-35 | after one create: not loading; on success the data with no error; on failure the message with no data; the earlier state does not matter |
| CreateItemHook.OverlappingCreates | reacting/src/features/items/hooks/useCreateItem.js:20-35 | when two creates overlap, the first to settle clears loading while the other is pending, and a failure settling first leaves its message beside the later success's data |

## Left out

- Storage engines: the first backend's item repository, the second backend's intent repository and the second backend's user repository (`intentions/app/users/repository.py`) run on SQLAlchemy. They are modelled as in-memory tables with the same find, create, update and delete protocol. Sessions, transactions and SQL are not modelled. The second backend's user service runs here on the first backend's in-memory user repository, whose listing is in insertion order; the SQL `select` of `find_all` has no `ORDER BY`, so the database promises no order.
- IntentionsStore.IntentStore.DeleteChild: the database's `ON DELETE SET NULL` foreign keys are not modelled. They are the `aspect_id` of inputs, choices, pitfalls, assumptions, qualities and examples (`intentions/app/intents/db_models.py:70`, 88, 107, 123, 139, 156), and the `source_output_id`, `source_prompt_id` and `source_assumption_id` of insights (db_models.py:205-207). After DeleteChild, after the cascade of IntentionsStore.IntentStore.Delete, and after IntentionsService.ReplaceArticulation replaces aspects or assumptions, surviving rows keep the ids of the deleted rows, where the database would store NULL.
- The second backend's tables share one id counter in the model, so ids are unique across tables, which the database does not promise.
- The engine, session, `init_db` and `close_db` functions of `declaring/app/shared/database.py` are I/O and are not modelled, and neither is `setup_logger` of `logging_config.py`.
- The dependency providers `get_user_repository` and `get_intent_repository` of `dependencies.py` are wiring only and are not modelled. The routers are not part of this model.
- Logging calls are left out. They only write to the log and change no result.
- The second backend's event classes are not part of this model. Its events are data carrying the fields the service passes.
- The second backend's service methods return the events they publish rather than appending them to a log. The first backend's services append to an event log.
- `json.dumps` of the log record is left out. The model stops at the ordered field list it would serialise.
- `str()` of a list or a dictionary is known only by its type name. Only the scalar renderings used in JSON-RPC error data and log lines are modelled.
- JSON numbers are integers. Floating-point JSON values are left out.
- The SSE `GET` endpoint of the second backend's MCP module is not modelled. The internals of `list_tools` and `call_tool` are parameters.
- Header bytes are modelled as characters below 256. The `decode("latin-1")` step of the SDK adapter is therefore the identity; the Accept value's `decode(errors="ignore")` is modelled as UTF-8 decoding.
- McpSdkHttp.NeedsRewrite: a character at or above 256 in a header value cannot come from bytes and is dropped by the decoder like an undecodable byte.
- SheetCells.StyleIndex: `str.isdigit` and `int` are modelled on ASCII digits only. Python's `isdigit` also accepts other Unicode digits such as "²", for which `int` then raises, and `int` reads other decimal digits such as "١". The Unicode digit tables are not modelled.
- SheetCells.PyInt: reads ASCII digits only, for the same reason; `int("١")` is 1 in Python.
- SheetCells.CellValueFromXml: a style index or shared-string index written with non-ASCII digits is read as no index here, while Python reads it or raises.
- DeclaringIntents.NewIntent: the `facts=[]` default is one list shared by every intent built without facts. No code appends to an intent's facts (the router only reads them), so the sharing is unobservable, and the value model does not express it.
- DeclaringItemStore.ItemRow: item prices, Python floats, are modelled as `real`, so NaN and the infinities are not modelled.
- DeclaringItemStore.Matches: the `LIKE` pattern has no escape character, as on SQLite, the default engine. PostgreSQL's default escape `\` is not modelled. Case is folded with ASCII-only `lower`, as SQLite does; PostgreSQL's `ILIKE` folds by locale.
- IntentionsStore.ReadAspect: every stored row was built by its kind's constructor (the store's invariant), so a read never meets a row the constructor refuses. A database row written by other code, say with a blank name, raises in the source and cannot be stored here. The same holds for the other `Read` functions.
- `float(raw)` of the exporter is a parameter, returning a finite value, NaN or an infinity. The exporter's choice between `int` and `float` for a number is left out, and a date record keeps the serial and its whole day, not the time of day or the ISO text.
- SheetDates.SerialSeconds: the time of day is computed only to decide whether the instant is in range. The product of the fraction and 86400 is exact here, while Python rounds it to a double first, so a fraction within a rounding error of a half second may round the other way.
- File and ZIP reading, XML parsing and file writing of the exporter are not modelled. The cells arrive already parsed.
- Clocks are parameters: each creation time or update time is an opaque instant passed in.
- Asynchrony is not modelled: every `await` is a plain call, except in the `useCreateItem` hook, whose call is split at its `await`.
- `fetch` is a parameter. Reading the body as JSON or text is part of its outcome. `Headers` name normalisation is not modelled.
- `JSON.stringify` is a parameter.
- JavaScript's integer-like keys, which objects enumerate first, are not modelled. Object properties keep insertion order.
- Spreading a non-object `options.headers` (a string, say) is treated as spreading nothing.
- React's batching and re-rendering are not modelled. The hook's cells are fields set in program order.
- The item client imports its configuration and error type from `reacting/src/shared/api/apiConfig.js` and `apiError.js`, which are not part of this model. The customer client's `apiConfig.js` and `apiError.js`, which have the same exports, stand in for them.
- `TimeoutMs`: `API_CONFIG.timeout` is declared, but no request reads it, so no timeout is modelled.

## Findings

| source | as written | input that shows it | evidently intended | confidence | as-written member | corrected member |
|---|---|---|---|---|---|---|
| intentions/app/intents/service.py:326-332 | `add_insight` checks a source output through `repository.get_prompt_id_for_output`, which the repository does not define, so the call fails | intent 1 with prompt 2, output 3 of that prompt, and an insight naming output 3 | the output is looked up, rejected when missing or when its prompt is not one of the intent's, and accepted otherwise | not executed | IntentionsService.OutputSourceCounterexample | IntentionsService.InsightSourceError |
