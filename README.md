# Response parsers and prompt blocks of the data-analyst API

This project models, in Dafny, the part of the analyst API that turns untrusted
language-model output into structured data, together with the prompt blocks that
carry data to the model:

- the **plan parser** (`parse_plan_response`): it turns a reply into `{"queries": [...]}`.
  It keeps only entries with string `title` and `sql`, and gives each kept entry an id.
- the **insights parser** (`parse_insights_response`): it produces a summary and validated insights.
  A reply cut off mid-array still yields every insight object completed before the cut.
  Salvage uses the string-aware brace scanner (`_extract_json_object`, `_extract_insight_objects`) and the summary pattern.
- the **synthesis prompt's results block** (`build_synthesize_prompt`).
- the **chart-data lookup** of the synthesis handler: SQL normalisation, the index of plan results, and exact / containment / positional matching.
- the **chat parser** (`parse_llm_response`): it splits conversational replies from SQL replies, fills defaults and drops `chart`.
  This part also covers the schema block of the chat system prompt and the ten-message history window.
- the **visualize parser** (`parse_visualize_response`): it reduces any reply to "no chart" or to chart code with a title.
  This part also covers the 50-row block of the visualize prompt and the handler's short cut for empty results.

The model's external collaborators are parameters:

- `decode: string -> Option<Json>` is `json.loads`. `None` stands for `JSONDecodeError`.
- `show: Json -> string` is Python's `str` of a non-string value.
- The model's reply is a plain `string` argument.

Decoded JSON is the `Json` datatype. An object is an ordered list of entries (`Fields`), because Python dicts keep insertion order and the parsers observe it:

- `Get` returns the value under a key;
- `Set` replaces in place or appends;
- `Remove` is `dict.pop`.

Modules, one file each:

| module | file | models |
|---|---|---|
| `Wrappers` | wrappers.dfy | `Option`, `Result` |
| `JsonValue` | json_value.dfy | decoded values and dict operations |
| `Text` | text.dfy | `strip`, `split`, `join`, `lower`, `in` on strings, `str(n)` |
| `Fences` | fences.dfy | the markdown-fence stripping all four parsers share |
| `Patterns` | patterns.dfy | the four regular expressions, as deterministic scanners, and `_extract_summary` |
| `BraceScan` | brace_scan.dfy | the string-aware brace scanner and the insight-object salvage |
| `Render` | render.dfy | "- name (type)" and "\| v1 \| v2 \|" lines, `rows[:n]` |
| `Plan` | plan.dfy | `parse_plan_response` |
| `Insights` | insights.dfy | `parse_insights_response` |
| `SynthesizePrompt` | synthesize_prompt.dfy | the results block of `build_synthesize_prompt` |
| `ResultLookup` | result_lookup.dfy | `_normalize_sql` and the chart-data lookup |
| `Chat` | chat.dfy | `parse_llm_response`, `build_system_prompt`, `messages[-10:]` |
| `Visualize` | visualize.dfy | `parse_visualize_response`, `build_visualize_prompt`, the empty-input short cut |

Loops in the source are methods with `while` loops. Each method is proved equal to a specification function, and the properties are proved about that function:

- the brace scanner;
- both salvage loops;
- the validation loops;
- the `results_text` accumulation;
- the result index;
- the containment search;
- the sample-row and chart-row rendering.

The chat parser's SQL path updates the decoded dict in place, and its method does the same on a local `Fields` value.

Behaviour worth knowing, as the code has it:

- A plan reply that is not an object does not fail. A bare JSON list found by `\[.*\]` is returned as the queries without validation. Anything else gives `{"queries": []}`.
- A missing or non-list `queries` does not fail either. The first list-of-records value is used instead, and without one the plan is empty.
- Plan ids are not made unique. A supplied id is kept as is, and a positional id counts every entry, dropped ones included.
- An insight's `sql` is passed through whatever its type; it is not defaulted to a string.
- A list or dict `priority` makes the membership test raise `TypeError`, so the whole parse fails. Only other invalid values fall back to `medium`.
- Insights carry optional `pythonCode` / `chartTitle` strings; the parsers validate no other chart description.

## Model

| member | source | states |
|---|---|---|
| `JsonValue.Set` | api/chat.py:103 | `d[key] = v`: the key maps to `v`, every other key is unchanged, and an existing key keeps its place while a new key is appended last |
| `JsonValue.Remove` | api/chat.py:108 | `d.pop(key, None)`: the key is gone, every other key keeps its value, and the remaining keys keep their order |
| `Text.NatToStringValue` | api/insights.py:223 | the decimal digits of `str(n)` read back as `n` |
| `Fences.StripFences` | api/chat.py:66-74 | the result is trimmed whatever the reply; a reply that does not open with three backticks once trimmed is only trimmed |
| `Fences.FenceRoundTrip` | api/chat.py:66-74 | a body wrapped in an opening fence line (with any info string) and a closing fence line comes back as the trimmed body |
| `Fences.UnclosedFence` | api/chat.py:69-74 | a fence that is never closed loses only its opening line: the rest comes back trimmed, unless its own last line is a bare fence |
| `Patterns.LeftmostBlock` | api/chat.py:82 | a match starts with `{` and ends with `}` |
| `Patterns.LeftmostBlockSpec` | api/visualize.py:73 | the search reports the leftmost start at which the bounded-depth brace pattern matches, and none exactly when no start matches |
| `Patterns.DeeperFindsNoLater` | api/visualize.py:73 | allowing a deeper nesting (the visualize pattern against the chat one) never moves the leftmost match to the right, and from the same start it finds the same block |
| `Patterns.BracketSpan` | api/insights.py:191 | `\[.*\]` matches exactly when some `]` follows the first `[`, and spans from the first `[` to the last `]` |
| `Patterns.InsightsMarker` | api/insights.py:249 | the marker match ends just past a `[`; it is the match at the leftmost start where the pattern matches, and there is none exactly when no start matches |
| `Patterns.MarkerAtStart` | api/insights.py:249 | `"insights"`, optional whitespace, a colon, optional whitespace and `[` match, ending just past the `[` |
| `Patterns.MarkerExtends` | api/insights.py:249 | a marker complete in a reply is found at the same index whatever is appended to the reply |
| `Patterns.ExtractSummary` | api/insights.py:234-239 | the summary is always a well-formed JSON string body (no bare quote, every backslash escapes a character); it is "Analysis complete." when the pattern matches nowhere |
| `Patterns.SummaryLeftmost` | api/insights.py:236-238 | when the pattern matches, the summary is the capture of the match at the leftmost start where it matches |
| `Patterns.SummaryFirst` | api/insights.py:236-238 | when the pattern matches at the start, the captured group is the string body up to the closing quote |
| `Patterns.SummaryRoundTrip` | api/insights.py:236-238 | a `"summary"` literal with any spacing around its colon and any string body, after a prefix holding no `"summary"` key of its own (the `{` opening an object, say), gives back exactly that body, whatever follows it |
| `BraceScan.ScanToClose` | api/insights.py:145-171 | the character loop stops at the same index as the specification scan `CloseFrom` |
| `BraceScan.ScanFindsFirstClose` | api/insights.py:148-166 | the scan stops exactly at the first character that brings the depth back to zero, read in the state left by the text before it |
| `BraceScan.CandidateBalanced` | api/insights.py:145-166 | from an opening brace, the depth stays at least one until the close and is zero after it, outside string literals; without a close the depth never returns to zero |
| `BraceScan.CandidateSpan` | api/insights.py:142-166 | the candidate runs from the first `{` to the brace the scan stops at, and there is one exactly when the scan from the first `{` stops; text without `{` has none |
| `BraceScan.JsonObjectIn` | api/insights.py:140-171 | the result is the decoding of the candidate span when there is one, and `None` when there is none |
| `BraceScan.ExtractJsonObject` | api/insights.py:140-171 | the method returns `JsonObjectIn` |
| `BraceScan.InsightObjects` | api/insights.py:248-254 | no `"insights": [` marker gives no objects; otherwise the salvage starts just past the marker |
| `BraceScan.ObjectsAreSalvaged` | api/insights.py:256-293 | every salvaged value is the decoding of a balanced span that starts with `{` at or after the starting position |
| `BraceScan.ObjectsFromStop` | api/insights.py:258-261 | after the separators, anything but `{`, or a `{` that never closes, ends the salvage |
| `BraceScan.ObjectsFromStep` | api/insights.py:282-293 | a closed span is kept when it decodes and passed over when it does not; the salvage continues after its closing brace |
| `BraceScan.SkipSeparatorRun` | api/insights.py:258-259 | the inner loop stops at the first character that is not a space, tab, newline, carriage return or comma |
| `BraceScan.NextObjectSpan` | api/insights.py:256-289 | one turn's search skips separators and returns the `{` with its closing brace exactly when the salvage goes on, nothing when it stops |
| `BraceScan.SalvageFrom` | api/insights.py:253-298 | the salvage loop returns `ObjectsFrom` |
| `BraceScan.ExtractInsightObjects` | api/insights.py:242-298 | the method returns `InsightObjects` |
| `BraceScan.TruncationKeepsPrefix` | api/insights.py:253-298 | from a fixed start, what is salvaged from a cut-off text is a prefix of what the whole text yields |
| `BraceScan.CutReplyKeepsInsights` | api/insights.py:242-298 | a reply cut short anywhere yields a prefix of the insight objects the whole reply yields: every object completed before the cut is kept |
| `Render.Cell` | api/chat.py:22 | a missing key shows as `NULL`, a string as itself, any other value as `str` shows it |
| `Render.RenderRows` | api/visualize.py:21-24 | the row loop returns `RowLines` |
| `Render.Capped` | api/visualize.py:19 | `rows[:n]` is the first `min(len(rows), n)` rows |
| `Render.CappedIgnoresTail` | api/visualize.py:19 | rows past the cap never matter |
| `Plan.QueryId` | api/insights.py:217-223 | a non-empty string id is kept, a number (bool included) is shown with `str`, anything else gives `q` + the 1-based unfiltered position |
| `Plan.PlanItemShape` | api/insights.py:224-229 | a kept entry has exactly the keys id, title, sql, rationale in that order; title and sql are the query's; rationale is the query's, of any type, and `""` when missing |
| `Plan.Kept` | api/insights.py:211-216 | every kept position is in range and holds a dict with string title and sql |
| `Plan.KeptSpec` | api/insights.py:211-216 | every such position is kept, in increasing order |
| `Plan.ValidQueriesAt` | api/insights.py:210-231 | validation yields one entry per well-formed query, in input order; the k-th is built from the k-th kept position |
| `Plan.ValidateQueries` | api/insights.py:210-231 | the loop returns `ValidQueries` |
| `Plan.PlanItemsShaped` | api/insights.py:224-229 | every validated entry is a dict with exactly those four keys and a string id |
| `Plan.IdCountsDroppedEntries` | api/insights.py:211-223 | a malformed entry followed by a well-formed one without an id yields a single entry with id `q2` |
| `Plan.FirstRecordList` | api/insights.py:203-206 | the first value in key order that is a non-empty list starting with a dict; none when no value is one |
| `Plan.FindRecordList` | api/insights.py:203-206 | the loop over `items()` returns `FirstRecordList` |
| `Plan.FindQueries` | api/insights.py:201-206 | `queries` when it is a list, else the first record list |
| `Plan.ParsePlanResponse` | api/insights.py:174-231 | the parser returns `{"queries": ParsePlan(...)}` |
| `Plan.PlanFrom` | api/insights.py:190-231 | the part after decoding returns `{"queries": PlanFromParsed(...)}` |
| `Plan.CleanPlan` | api/insights.py:184-231 | a reply decoding to a dict with a `queries` list gives the validated list |
| `Plan.ListReplyUnvalidated` | api/insights.py:190-196 | a reply that is a bare JSON list is returned unvalidated |
| `Plan.UndecodableGivesEmptyPlan` | api/insights.py:184-199 | a reply whose fence-stripped text does not decode, holds no decodable object candidate, and has no bracketed span decoding to a list gives the empty plan |
| `Plan.RenamedQueriesKey` | api/insights.py:201-208 | without a `queries` list, the first record list is validated instead, and without one the plan is empty |
| `Insights.PriorityOf` | api/insights.py:341-343 | a list or dict priority raises `TypeError`; a recognised name is kept; anything else becomes medium |
| `Insights.NonBlankString` | api/insights.py:352-357 | an optional chart part is kept exactly when it is a string with something besides whitespace |
| `Insights.EntryFor` | api/insights.py:333-359 | an item without string title and finding is skipped; an eligible item raises exactly when its priority is unhashable; otherwise an insight with the item's title, finding, priority and sql (default `""`), its non-blank `pythonCode`, and its non-blank `chartTitle` only when there is chart code |
| `Insights.ValidateItem` | api/insights.py:334-359 | one loop turn returns `EntryFor` |
| `Insights.ValidateInsights` | api/insights.py:331-359 | the loop returns `ValidInsights` |
| `Insights.ValidInsightsFails` | api/insights.py:341-342 | validation fails exactly when some eligible item has a list or dict priority |
| `Insights.ValidInsightsConcat` | api/insights.py:333-359 | the validation of a concatenation is the validation of each part, in order, the first failure winning |
| `Insights.ValidInsightsPrefix` | api/insights.py:333-359 | the insights of a prefix of the items come first and unchanged among those of the whole list |
| `Insights.ValidInsightsShape` | api/insights.py:333-359 | one insight per eligible item, each with valid chart parts |
| `Insights.EligibleCount` | api/insights.py:333-339 | the number of eligible items is at most the number of items |
| `Insights.FinalSummary` | api/insights.py:328-329 | a non-empty string summary is kept; anything else becomes "Analysis complete." |
| `Insights.ParseInsightsResponse` | api/insights.py:301-361 | the parser returns `ParseInsights` |
| `Insights.ReportOf` | api/insights.py:318-361 | the part after decoding returns `ReportFrom` |
| `Insights.CleanInsights` | api/insights.py:311-321 | a reply decoding to a dict with an `insights` list is validated with its own summary |
| `Insights.SalvagedInsights` | api/insights.py:322-326 | any other reply takes its summary from the pattern and its items from the brace-scanner salvage |
| `SynthesizePrompt.BuildResultsText` | api/insights.py:84-100 | the accumulation loop returns `ResultsText` |
| `SynthesizePrompt.AppendSection` | api/insights.py:86-100 | one turn appends exactly the entry's section |
| `SynthesizePrompt.AppendRows` | api/insights.py:96-98 | the inner loop appends exactly the rows' block |
| `SynthesizePrompt.RowBlockConcat` | api/insights.py:96-98 | the block of concatenated rows is the concatenation of their blocks |
| `SynthesizePrompt.ErrorTakesPrecedence` | api/insights.py:88-90 | an entry with an error shows only the error, whatever its result |
| `SynthesizePrompt.RowsPastCapIgnored` | api/insights.py:96 | rows past the twentieth never reach the prompt |
| `SynthesizePrompt.ResultsTextConcat` | api/insights.py:84-100 | the text for concatenated entries is the concatenation of their texts |
| `SynthesizePrompt.SectionInPlace` | api/insights.py:85-100 | every entry's section appears between the sections before and after it |
| `ResultLookup.NormalizeSql` | api/insights.py:478-479 | the normal form is lower case, with no leading or trailing whitespace |
| `ResultLookup.NormalFormShape` | api/insights.py:478-479 | the normal form keeps exactly the words of the lowered SQL, in order, and every whitespace character in it is a single space between two words |
| `ResultLookup.NormalizeIdempotent` | api/insights.py:478-479 | normalising twice is normalising once |
| `ResultLookup.BlankNormalizesEmpty` | api/insights.py:478-479 | whitespace-only SQL normalises to the empty string |
| `ResultLookup.IndexGet` | api/insights.py:497 | a found result is stored under that key, and nothing is found exactly when no entry has that key |
| `ResultLookup.IndexPut` | api/insights.py:485 | the key maps to the new result and other keys are unchanged; an existing key keeps its place, with every key staying in its position, while a new key is appended last |
| `ResultLookup.ResultList` | api/insights.py:482-486 | the positional list holds only results with rows, no more than there are entries |
| `ResultLookup.ResultListConcat` | api/insights.py:482-486 | the list for concatenated entries is the concatenation of their lists |
| `ResultLookup.ResultListOne` | api/insights.py:484-486 | a single entry contributes its result exactly when that result has rows; with ResultListConcat, the list is exactly the results with rows, in plan order |
| `ResultLookup.BuildResultIndex` | api/insights.py:481-486 | the loop returns `IndexOf` and `ResultList` |
| `ResultLookup.IndexFindsLast` | api/insights.py:483-486 | a lookup finds the last entry with rows whose SQL has that normal form: later entries overwrite |
| `ResultLookup.IndexedHaveRows` | api/insights.py:484-485 | every indexed result has rows |
| `ResultLookup.FuzzyMatch` | api/insights.py:500-505 | a match is an indexed result whose SQL contains the insight's or is contained in it, with no earlier one that does; none when no entry qualifies |
| `ResultLookup.FindFuzzy` | api/insights.py:502-505 | the loop returns `FuzzyMatch` |
| `ResultLookup.LookupResult` | api/insights.py:495-509 | the lookup returns `ResultFor`: exact match, else containment match, else positional |
| `ResultLookup.FindChartSources` | api/insights.py:489-513 | the loop gives each insight with chart code the lookup of its SQL at its position, and every other insight nothing |
| `ResultLookup.ChartDataHasRows` | api/insights.py:507-513 | a chart is only drawn from a result with rows |
| `ResultLookup.BlankSqlMatchesFirst` | api/insights.py:500-505 | blank SQL without an exact match takes the first indexed result |
| `ResultLookup.PositionalFallback` | api/insights.py:507-509 | with no exact or containment match, the result at the insight's position is used, if there is one |
| `ResultLookup.SameNormalFormSameResult` | api/insights.py:497-509 | SQL with the same words once lowered, that is SQL differing only in case and whitespace, finds the same result |
| `Chat.AnswerShape` | api/chat.py:7-10 | the fallback and chat answers hold exactly `sql` `""` and the explanation |
| `Chat.SqlAnswerShape` | api/chat.py:101-108 | `sql` is the reply's when a string, else `""`. `explanation` is the reply's whenever present, of any type, else the stock text. `chart` is gone, other keys keep their values, and key order is kept, with a missing `sql` and then `explanation` appended |
| `Chat.AnswerAlwaysShaped` | api/chat.py:60-110 | every answer has a string `sql`, an `explanation` and no `chart` |
| `Chat.ChatReplyHasNoSql` | api/chat.py:92-99 | a conversational reply gives only `sql` `""` and the message, or the fallback text when the message is missing, empty or not a string |
| `Chat.NotADictFallsBack` | api/chat.py:89-90 | a reply that does not decode to a dict gives the fallback |
| `Chat.FencedReplyAsBare` | api/chat.py:66-74 | a fenced reply parses as its bare body |
| `Chat.ParseLlmResponse` | api/chat.py:60-110 | the parser, updating the dict in place, returns `ParseChat` |
| `Chat.BuildSchemaBlock` | api/chat.py:13-38 | the prompt builder returns `SchemaBlock` |
| `Chat.SchemaListsEveryColumn` | api/chat.py:14-16 | every column's "- name (type)" line is in the prompt |
| `Chat.SchemaShowsEverySampleRow` | api/chat.py:19-25 | every sample row's line is in the prompt |
| `Chat.RecentMessages` | api/chat.py:168 | the last `min(n, 10)` messages, in their original order |
| `Chat.OlderMessagesIgnored` | api/chat.py:167-168 | messages before the last ten never matter |
| `Chat.RecentIdempotent` | api/chat.py:168 | taking the window twice takes it once |
| `Visualize.ReplyJsonShape` | api/visualize.py:80-91 | the response has exactly `chartCode` (null) without a chart, and exactly `chartCode` and `chartTitle` with one |
| `Visualize.ChartExactlyWhenCode` | api/visualize.py:80-91 | a chart comes back exactly when the decoded dict's `chartCode` is a string with something besides whitespace. The code is returned unchanged. The title is the reply's when a string, `""` included, else "Chart" |
| `Visualize.FencedReplyAsBare` | api/visualize.py:62-67 | a fenced reply parses as its bare body |
| `Visualize.EmptyResultsNoChart` | api/visualize.py:137-144 | empty columns or rows never give a chart; otherwise the reply is parsed |
| `Visualize.BuildRowsBlock` | api/visualize.py:18-35 | the prompt builder returns `RowsBlock` |
| `Visualize.RowsPastCapIgnored` | api/visualize.py:19-22 | rows past the fiftieth never reach the prompt |
| `Visualize.ReportsTotalRows` | api/visualize.py:32 | the count shown reads back as the number of all rows, not of those shown |
| `Visualize.ShowsEachCappedRow` | api/visualize.py:19-24 | each of the first fifty rows is shown, values in column order |

## Left out

- HTTP plumbing is not modelled: the request handlers, `_send_json` / `_send_error`, reading the request body and the status-code mapping of exceptions.
- `call_openrouter` is not modelled, because it is network I/O. The model's reply is a parameter.
- JSON syntax is not modelled; `json.loads` is the `decode` parameter.
- Python's `str` of non-string values (float formatting, `True`, `None`) is the `show` parameter.
- Chart generation is not modelled: `execute_plot_code` runs untrusted code through `exec` with pandas and plotly, and the `DataFrame` construction is a library call. The `pythonCode` pop and the `plotlySpec` assignment go with it; the lookup of the data a chart would be drawn from is modelled.
- `strip`, `split`, `lower` and `\s` use ASCII whitespace (space, tab, newline, carriage return, vertical tab, form feed and U+001C to U+001F) and ASCII case only; other Unicode whitespace and case mappings are not modelled.
- The `print` calls to stderr carry no behaviour and are left out.
- The fixed instruction text of the three prompts is left out. Only the blocks that carry data are modelled: the chat schema block, the synthesis results block and the visualize rows block.
- The plan prompt builder and the synthesis prompt's schema lines are not modelled. They render columns the same way as `Render.ColumnLines`.
- Malformed request bodies are not modelled: a schema without `columns`, or entries that are not dicts. Prompt inputs are typed records, so the `KeyError` / `AttributeError` paths cannot arise.
- Objects produced by `decode` are taken to have distinct keys. `Get` returns the first entry for a key, while `json.loads` keeps the last duplicate; the two agree once keys are distinct.
- `Insights.EntryFor`: an insight is a typed record, so the key order of the entry dict is not modelled.
- In a synthesis plan entry, an empty `error` stands for a missing one, and likewise an empty `result`, because both are falsy.
- The tests that expect a `chart` key with `xKey` / `yKeys` are not modelled. They belong to an earlier version of the API that the code no longer implements.
