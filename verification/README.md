# smartchr in Dafny

A model of the core of smartchr, an IntelliJ plug-in in the style of Emacs' smartchr.el.
It lets a key cycle through a list of strings. Typing `=` inserts `" = "`. Typing it again
within two seconds replaces that with `" == "`, then `" === "`, and so on. The model covers
four parts, with the editor platform abstracted away:

- **The typed-character handler** (`handler.dfy`, module `Handler`). It is a pure step
  function. Its inputs are the typed character, the file-type name, the mapping list, the
  document as a string, the caret offset, the per-character cycle state and the current
  time. It either passes the character through or returns the new document, caret and
  state map. It covers:
  - `findMapping`'s first-match resolution;
  - the strict `> 2000` ms timeout;
  - the next index (LOOP wraps, ONE_OF stops at the last candidate);
  - the guarded replacement of the previous insertion;
  - the state update.
- **The value types** (`models.dfy`, module `Models`):
  - `CycleMode` with `name`/`valueOf`;
  - `SmartChrMapping` as a subset type that admits only non-empty candidate lists, with its
    constructor's `require` as a `Result`;
  - `KeyState` with its defaults.
- **The persisted settings list** (`settings.dfy`, module `Settings`). It holds
  `MappingState` records and models the conversions in `getMappings` and `setMappings`,
  plus `addMapping`, `removeMapping` and `reset`.
- **The hand-written JSON writer and reader** (`json_config.dfy`, module `JsonConfig`).
  - The writer is `generateJsonFromMappings`.
  - The reader is `parseJsonToMappings`, with `parseSingleMapping`, the three
    `extractJson*` helpers and `isValidJsonStructure`.
  - Each regular expression of the reader is modelled by a scanner for that one pattern. A
    pattern matched at one position is `MatchFieldAt`; `Regex.find` is `FindField`, the
    leftmost position that matches.
  - The brace-counting loop is the recursive function `SplitObjects`.
  - The proofs that the reader reads back what the writer wrote are in
    `json_roundtrip.dfy` (module `JsonRoundTrip`).

Kotlin's string primitives are in `text.dfy` (module `Text`): `trim()`, `indexOf`,
`lastIndexOf`, `split`, `removeSurrounding`, and the regex classes `\s` and `\w`.
`wrappers.dfy` has `Option`, which stands for nullable values, and `Result`, which stands
for thrown exceptions.

The timeout follows the handler's code
(src/main/kotlin/com/github/msfukui/smartchr/handler/SmartChrTypedHandler.kt:77): the cycle
times out only when strictly more than 2000 ms have passed since the character's last
keystroke. So a keystroke exactly 2000 ms after the previous one continues the cycle
(`Handler.TimeoutBoundaryContinues`). The test file's own helper `isTimeout`
(src/test/kotlin/com/github/msfukui/smartchr/handler/SmartChrTypedHandlerTest.kt:158-160)
uses `>=` instead; it does not call the handler, and the model does not follow it.

## Model

All paths are under `src/main/kotlin/com/github/msfukui/smartchr/`, written out in full.

| member | source | states |
|---|---|---|
| Models.ModeValueOf | src/main/kotlin/com/github/msfukui/smartchr/model/SmartChrModels.kt:6-16 | `valueOf` succeeds exactly for the two entry names `ONE_OF` and `LOOP` |
| Models.ModeNameRoundTrip | src/main/kotlin/com/github/msfukui/smartchr/model/SmartChrModels.kt:6-16 | `valueOf(name(mode)) == mode`, and `valueOf` gives a mode exactly for that mode's name; the two names differ |
| Models.NewMapping | src/main/kotlin/com/github/msfukui/smartchr/model/SmartChrModels.kt:21-50 | the constructor fails exactly when the candidate list is empty; otherwise the mapping holds the given fields unchanged |
| Models.NewMappingDefaults | src/main/kotlin/com/github/msfukui/smartchr/model/SmartChrModels.kt:35-45 | with only key and non-empty candidates given, construction succeeds with mode LOOP, file types `["*"]` and enabled |
| Settings.ToState | src/main/kotlin/com/github/msfukui/smartchr/settings/SmartChrSettings.kt:70-81 | the stored key is the one-character string of the key, the stored mode name reads back as the mode, and the lists and the flag are copied |
| Settings.FromState | src/main/kotlin/com/github/msfukui/smartchr/settings/SmartChrSettings.kt:51-65 | a record fails to convert exactly when its candidates are empty; an empty key becomes `' '`; a mode other than `ONE_OF` (including an unknown name) becomes LOOP; the lists and flag are kept |
| Settings.StateRoundTrip | src/main/kotlin/com/github/msfukui/smartchr/settings/SmartChrSettings.kt:51-81 | converting a mapping to its stored record and back gives the same mapping |
| Settings.GetMappings | src/main/kotlin/com/github/msfukui/smartchr/settings/SmartChrSettings.kt:51-65 | reading succeeds exactly when every record has candidates, and then gives one mapping per record, in order, each the conversion of its record |
| Settings.SetMappings | src/main/kotlin/com/github/msfukui/smartchr/settings/SmartChrSettings.kt:70-81 | the stored list is replaced by one record per mapping, same length and order |
| Settings.SetThenGet | src/main/kotlin/com/github/msfukui/smartchr/settings/SmartChrSettings.kt:51-81 | after `setMappings(ms)`, `getMappings()` returns exactly `ms` |
| Settings.AddMapping | src/main/kotlin/com/github/msfukui/smartchr/settings/SmartChrSettings.kt:86-95 | exactly one record is appended at the end; it is exactly the stored form of the mapping (the key as a one-character string, the mode by name, the lists and the flag copied), and it reads back as the mapping; earlier records are untouched |
| Settings.AddThenGet | src/main/kotlin/com/github/msfukui/smartchr/settings/SmartChrSettings.kt:86-95 | after adding, the mappings read back are the earlier ones followed by the new one |
| Settings.RemoveMapping | src/main/kotlin/com/github/msfukui/smartchr/settings/SmartChrSettings.kt:100-104 | an index in range removes exactly that record and keeps the others in order; an index out of range leaves the list unchanged |
| Settings.RemoveUndoesAdd | src/main/kotlin/com/github/msfukui/smartchr/settings/SmartChrSettings.kt:86-104 | removing the record just added restores the previous list |
| Settings.Reset | src/main/kotlin/com/github/msfukui/smartchr/settings/SmartChrSettings.kt:109-111 | no record remains and no mapping is read back |
| Handler.EnabledFor | src/main/kotlin/com/github/msfukui/smartchr/handler/SmartChrTypedHandler.kt:49 | the result holds exactly the mappings of the list whose key is the typed character and that are enabled, and is no longer than the list |
| Handler.EnabledForConcat | src/main/kotlin/com/github/msfukui/smartchr/handler/SmartChrTypedHandler.kt:49 | filtering a concatenation filters each part and concatenates, so the kept mappings stay in list order |
| Handler.EnabledForSingle | src/main/kotlin/com/github/msfukui/smartchr/handler/SmartChrTypedHandler.kt:49 | one mapping is kept exactly when its key is the typed character and it is enabled |
| Handler.FirstApplying | src/main/kotlin/com/github/msfukui/smartchr/handler/SmartChrTypedHandler.kt:50-52 | a mapping found is one of the list and names `"*"` or the file type; nothing is found exactly when no mapping of the list names either |
| Handler.FirstApplyingAt | src/main/kotlin/com/github/msfukui/smartchr/handler/SmartChrTypedHandler.kt:50-52 | the mapping found is the earliest one in the list that names `"*"` or the file type |
| Handler.FindMapping | src/main/kotlin/com/github/msfukui/smartchr/handler/SmartChrTypedHandler.kt:45-53 | a mapping found has the typed key, is enabled and applies to the file type |
| Handler.FindMappingStep | src/main/kotlin/com/github/msfukui/smartchr/handler/SmartChrTypedHandler.kt:45-53 | the first mapping is returned if it qualifies; otherwise the search continues in the rest of the list |
| Handler.FindMappingNone | src/main/kotlin/com/github/msfukui/smartchr/handler/SmartChrTypedHandler.kt:45-53 | nothing is found exactly when no mapping qualifies |
| Handler.FindMappingAt | src/main/kotlin/com/github/msfukui/smartchr/handler/SmartChrTypedHandler.kt:45-53 | if mapping `k` qualifies and none before it does, mapping `k` is found |
| Handler.FindMappingFirstMatch | src/main/kotlin/com/github/msfukui/smartchr/handler/SmartChrTypedHandler.kt:45-53 | first match in list order: nothing is found exactly when nothing qualifies, and otherwise the earliest qualifying mapping is found |
| Handler.Execute | src/main/kotlin/com/github/msfukui/smartchr/handler/SmartChrTypedHandler.kt:28-40 | the keystroke passes through (document, caret and states untouched) exactly when no mapping qualifies; when one does, the keystroke is `handleSmartChr` with the first qualifying mapping |
| Handler.CalculateNextIndex | src/main/kotlin/com/github/msfukui/smartchr/handler/SmartChrTypedHandler.kt:121-128 | for any stored index the result is a valid candidate index. LOOP gives (index + 1) modulo the candidate count, also for an index left from a longer list, so it goes one step on and wraps from the last to 0. ONE_OF goes one step on but stops at the last |
| Handler.StateFor | src/main/kotlin/com/github/msfukui/smartchr/handler/SmartChrTypedHandler.kt:74 | the stored state of the typed character, or the default state (index 0, nothing inserted, time 0) when there is none |
| Handler.IsTimeout | src/main/kotlin/com/github/msfukui/smartchr/handler/SmartChrTypedHandler.kt:77 | at most 2000 ms after the last keystroke is not a timeout; 2001 ms or more is |
| Handler.ShouldReplacePrevious | src/main/kotlin/com/github/msfukui/smartchr/handler/SmartChrTypedHandler.kt:133-145 | true exactly when something was inserted before and the text just before the caret is that insertion; never true when nothing was inserted |
| Handler.Replaces | src/main/kotlin/com/github/msfukui/smartchr/handler/SmartChrTypedHandler.kt:96 | the previous insertion is deleted only without a timeout and with an insertion recorded, and then the document is the text before the insertion, the insertion, and the text after the caret; a recorded insertion still before the caret within the window is always deleted |
| Handler.CycleIndex | src/main/kotlin/com/github/msfukui/smartchr/handler/SmartChrTypedHandler.kt:80-87 | the index of every keystroke of a cycle is a valid candidate index |
| Handler.LoopCycleVisitsInOrder | src/main/kotlin/com/github/msfukui/smartchr/handler/SmartChrTypedHandler.kt:121-128 | in LOOP mode the k-th keystroke uses candidate k for k < n, and the cycle repeats with period n |
| Handler.LoopCycleFirstRound | src/main/kotlin/com/github/msfukui/smartchr/handler/SmartChrTypedHandler.kt:121-128 | in LOOP mode the first round visits 0, 1, …, n-1 |
| Handler.OneOfCycleStopsAtLast | src/main/kotlin/com/github/msfukui/smartchr/handler/SmartChrTypedHandler.kt:121-128 | in ONE_OF mode the k-th keystroke uses candidate min(k, n-1) |
| Handler.ChooseIndex | src/main/kotlin/com/github/msfukui/smartchr/handler/SmartChrTypedHandler.kt:74-87 | the chosen index is valid, and it is 0 after a timeout or when nothing was inserted before |
| Handler.HandleSmartChr | src/main/kotlin/com/github/msfukui/smartchr/handler/SmartChrTypedHandler.kt:67-116 | the state of the typed character becomes (index, inserted candidate, now) with a valid index; other characters' states are unchanged; the caret sits right behind the inserted candidate |
| Handler.HandleSmartChrEdit | src/main/kotlin/com/github/msfukui/smartchr/handler/SmartChrTypedHandler.kt:96-108 | inside the window, the previous insertion is replaced only if it still lies just before the caret. In every other case the candidate is only inserted at the caret. The caret ends behind the candidate either way |
| Handler.HandleSmartChrIndex | src/main/kotlin/com/github/msfukui/smartchr/handler/SmartChrTypedHandler.kt:74-84 | the stored index is 0 after a timeout or on a first insertion, else the next index after the stored one |
| Handler.TimeoutRestartsCycle | src/main/kotlin/com/github/msfukui/smartchr/handler/SmartChrTypedHandler.kt:77-84 | more than 2000 ms after the last keystroke the first candidate is inserted and nothing is deleted |
| Handler.TimeoutBoundaryContinues | src/main/kotlin/com/github/msfukui/smartchr/handler/SmartChrTypedHandler.kt:77 | exactly 2000 ms after the last keystroke the cycle continues with the next index |
| Handler.FirstKeystrokeInsertsFirstCandidate | src/main/kotlin/com/github/msfukui/smartchr/handler/SmartChrTypedHandler.kt:74-84 | with no stored state (the default `KeyState`), the first candidate is inserted at the caret, nothing is deleted, and the state becomes (0, candidate, now) |
| Handler.EditedTextIsKept | src/main/kotlin/com/github/msfukui/smartchr/handler/SmartChrTypedHandler.kt:133-145 | if the text before the caret is no longer the last insertion, nothing is deleted |
| Handler.ResetKeyStates | src/main/kotlin/com/github/msfukui/smartchr/handler/SmartChrTypedHandler.kt:150-152 | no character keeps a state |
| Handler.ResetForgetsCycles | src/main/kotlin/com/github/msfukui/smartchr/handler/SmartChrTypedHandler.kt:150-152 | after a reset every character behaves as on its first keystroke; resetting twice is resetting once |
| Handler.TypeRepeatedly | src/main/kotlin/com/github/msfukui/smartchr/handler/SmartChrTypedHandler.kt:28-40 | a run of keystrokes keeps the caret inside the document |
| Handler.CycledTo | src/main/kotlin/com/github/msfukui/smartchr/handler/SmartChrTypedHandler.kt:106-115 | the document after the k-th candidate of a cycle went in: the old text around the caret, with that candidate between |
| Handler.CyclingReplacesInPlace | src/main/kotlin/com/github/msfukui/smartchr/handler/SmartChrTypedHandler.kt:67-116 | typing a mapped key k+1 times, each within the window of the previous, leaves exactly the k-th candidate of the cycle at the original caret, with the caret behind it |
| Handler.CyclingContinues | src/main/kotlin/com/github/msfukui/smartchr/handler/SmartChrTypedHandler.kt:67-116 | from the j-th keystroke of such a run on, the rest of the run ends in the state of the last keystroke |
| Handler.NextKeystroke | src/main/kotlin/com/github/msfukui/smartchr/handler/SmartChrTypedHandler.kt:96-115 | a keystroke within the window replaces the j-th candidate of the cycle by the (j+1)-th in place |
| Text.Trim | src/main/kotlin/com/github/msfukui/smartchr/settings/JsonConfigService.kt:85 | the result is the slice of the input after its leading whitespace and before a tail that is all whitespace, and it neither starts nor ends with whitespace: the input with leading and trailing whitespace removed |
| Text.TrimPadded | src/main/kotlin/com/github/msfukui/smartchr/settings/JsonConfigService.kt:85 | text padded on both sides with whitespace trims to exactly the unpadded text |
| Text.IndexOf | src/main/kotlin/com/github/msfukui/smartchr/settings/JsonConfigService.kt:96 | the first occurrence at or after the start position, or none when there is no occurrence |
| Text.IndexOfChar | src/main/kotlin/com/github/msfukui/smartchr/settings/JsonConfigService.kt:101 | the first position of the character at or after the start, or none when there is no such position |
| Text.LastIndexOfChar | src/main/kotlin/com/github/msfukui/smartchr/settings/JsonConfigService.kt:102 | the last position of the character, or none when it does not occur |
| Text.Split | src/main/kotlin/com/github/msfukui/smartchr/settings/JsonConfigService.kt:191 | at least one piece, and no piece contains the delimiter |
| Text.SplitJoin | src/main/kotlin/com/github/msfukui/smartchr/settings/JsonConfigService.kt:191 | joining the pieces with the delimiter gives the split text back |
| Text.RemoveSurrounding | src/main/kotlin/com/github/msfukui/smartchr/settings/JsonConfigService.kt:192 | a text wrapped in the delimiter loses exactly one delimiter at each end; any other text is unchanged |
| Text.KeepNonEmpty | src/main/kotlin/com/github/msfukui/smartchr/settings/JsonConfigService.kt:193 | no element of the result is empty, and the result is no longer than the input |
| Text.KeepNonEmptyMembers | src/main/kotlin/com/github/msfukui/smartchr/settings/JsonConfigService.kt:193 | exactly the non-empty elements are kept |
| Text.KeepNonEmptyKeepsAll | src/main/kotlin/com/github/msfukui/smartchr/settings/JsonConfigService.kt:193 | a list with no empty element passes the filter unchanged, in order |
| Text.KeepNonEmptyConcat | src/main/kotlin/com/github/msfukui/smartchr/settings/JsonConfigService.kt:193 | filtering a concatenation filters each part and concatenates, which keeps the order and the number of copies |
| Text.KeepNonEmptySingle | src/main/kotlin/com/github/msfukui/smartchr/settings/JsonConfigService.kt:193 | one element is kept exactly when it is non-empty |
| JsonConfig.GenerateJson | src/main/kotlin/com/github/msfukui/smartchr/settings/JsonConfigService.kt:220-259 | the text starts with `{` and ends with `}`; for no mappings it is the object with `"mappings": []` |
| JsonConfig.MatchValue | src/main/kotlin/com/github/msfukui/smartchr/settings/JsonConfigService.kt:171-204 | the captured group of a value pattern: a quoted string without `"`, a bracketed text without `]`, or `true`/`false`, and in each case the text starts with the matched part. There is no match exactly when the text does not open with the right character (`"`, `[`) or has no closing one after it, or, for the boolean, starts with neither word |
| JsonConfig.MatchFieldAt | src/main/kotlin/com/github/msfukui/smartchr/settings/JsonConfigService.kt:171-204 | a field pattern matches only where the quoted field name stands |
| JsonConfig.FindField | src/main/kotlin/com/github/msfukui/smartchr/settings/JsonConfigService.kt:174 | a group found has the shape its pattern captures |
| JsonConfig.FindFieldNone | src/main/kotlin/com/github/msfukui/smartchr/settings/JsonConfigService.kt:174 | `find` gives no match only when the pattern matches at no position |
| JsonConfig.FindFieldAt | src/main/kotlin/com/github/msfukui/smartchr/settings/JsonConfigService.kt:174 | `find` gives the match at the leftmost position where the pattern matches |
| JsonConfig.FindFieldNoMatch | src/main/kotlin/com/github/msfukui/smartchr/settings/JsonConfigService.kt:174 | when the pattern matches at no position, `find` gives no match |
| JsonConfig.MatchFieldAtSpaced | src/main/kotlin/com/github/msfukui/smartchr/settings/JsonConfigService.kt:172 | any whitespace run before and after the colon is accepted: the field pattern at `"name"`, spaces, `:`, spaces, value is the value pattern at the value |
| JsonConfig.ExtractJsonString | src/main/kotlin/com/github/msfukui/smartchr/settings/JsonConfigService.kt:171-176 | the value holds no `"`; it is empty when the field is missing, and otherwise the group of the leftmost match |
| JsonConfig.CleanItems | src/main/kotlin/com/github/msfukui/smartchr/settings/JsonConfigService.kt:192 | each piece is trimmed and unquoted, one result per piece |
| JsonConfig.ExtractJsonArray | src/main/kotlin/com/github/msfukui/smartchr/settings/JsonConfigService.kt:181-194 | no element is empty; a missing field or a blank bracket group gives `[]`; otherwise the list is the group trimmed, split at every comma, each piece trimmed and unquoted, and the empty pieces dropped |
| JsonConfig.ExtractJsonBoolean | src/main/kotlin/com/github/msfukui/smartchr/settings/JsonConfigService.kt:199-204 | the flag is false exactly when the leftmost match reads `false`; a missing field reads as true |
| JsonConfig.IsValidJsonStructureMeans | src/main/kotlin/com/github/msfukui/smartchr/settings/JsonConfigService.kt:209-215 | the structure check passes exactly when `"word"`, optional spaces and `:` occur at some position |
| JsonConfig.NoQuoteNoKey | src/main/kotlin/com/github/msfukui/smartchr/settings/JsonConfigService.kt:209-215 | text without a double quote fails the structure check |
| JsonConfig.IsValidJsonStructure | src/main/kotlin/com/github/msfukui/smartchr/settings/JsonConfigService.kt:209-215 | a text that passes the structure check has at least four characters (`"a":`) and contains a double quote |
| JsonConfig.UnquotedContentRejected | src/main/kotlin/com/github/msfukui/smartchr/settings/JsonConfigService.kt:91-93 | braces around unquoted text, such as `{ invalid json content }`, are rejected as invalid structure |
| JsonConfig.KeyField | src/main/kotlin/com/github/msfukui/smartchr/settings/JsonConfigService.kt:149 | a missing or empty key value becomes `' '`; otherwise the key is the first character of the value |
| JsonConfig.ModeField | src/main/kotlin/com/github/msfukui/smartchr/settings/JsonConfigService.kt:151-155 | the mode is ONE_OF exactly when the value is `ONE_OF`, else LOOP (missing or unknown included) |
| JsonConfig.FileTypesField | src/main/kotlin/com/github/msfukui/smartchr/settings/JsonConfigService.kt:156-163 | a missing or empty list becomes `["*"]`; any other list is kept |
| JsonConfig.ParseSingleMapping | src/main/kotlin/com/github/msfukui/smartchr/settings/JsonConfigService.kt:148-166 | fails exactly when no non-empty candidate is read. On success the candidates are the ones read, and the key, mode, file types and flag are the ones the field readers give: a missing key gives `' '`, the mode is ONE_OF exactly for `ONE_OF`, missing file types give `["*"]`, a missing flag gives enabled |
| JsonConfig.SkipSeparators | src/main/kotlin/com/github/msfukui/smartchr/settings/JsonConfigService.kt:128-132 | the scan stops at the first character that is neither a comma nor whitespace, or at the end |
| JsonConfig.SplitObjects | src/main/kotlin/com/github/msfukui/smartchr/settings/JsonConfigService.kt:113-138 | when the brace loop succeeds it yields at most one mapping per remaining character of the array text |
| JsonConfig.ParseJson | src/main/kotlin/com/github/msfukui/smartchr/settings/JsonConfigService.kt:79-143 | rejects text whose trimmed form is not enclosed in braces, and text without a key pattern; a valid text without `"mappings"` reads as no mappings |
| JsonConfig.ParseJsonReadsArray | src/main/kotlin/com/github/msfukui/smartchr/settings/JsonConfigService.kt:95-138 | once the document is framed, has a key and names `"mappings"`, the result is the reading of the array that follows the name |
| JsonConfig.ParseJsonMissingBracket | src/main/kotlin/com/github/msfukui/smartchr/settings/JsonConfigService.kt:96-105 | for a framed, valid document naming `"mappings"`: no `[` after the name, or no `]` at all, reads as no mappings; a last `]` before the first `[` is an error |
| JsonConfig.ParseJsonArrayContent | src/main/kotlin/com/github/msfukui/smartchr/settings/JsonConfigService.kt:101-139 | between the first `[` after the name and the last `]`, only whitespace (an empty array) reads as no mappings; other content is split into objects, each read by `parseSingleMapping` |
| JsonRoundTrip.ListRoundTrip | src/main/kotlin/com/github/msfukui/smartchr/settings/JsonConfigService.kt:181-194 | the array text written for a non-empty list of portable items is read back as that list |
| JsonRoundTrip.ObjectRoundTrip | src/main/kotlin/com/github/msfukui/smartchr/settings/JsonConfigService.kt:148-166 | `parseSingleMapping` reads the object written for a portable mapping back as that mapping |
| JsonRoundTrip.WrittenObjectFor | src/main/kotlin/com/github/msfukui/smartchr/settings/JsonConfigService.kt:229-250 | a written object has its only `{` first and its only `}` last, and reads back as its mapping |
| JsonRoundTrip.SplitPackedTexts | src/main/kotlin/com/github/msfukui/smartchr/settings/JsonConfigService.kt:113-136 | the brace-counting loop cuts comma-separated objects back into the mappings they read as, in order |
| JsonRoundTrip.SplitWritten | src/main/kotlin/com/github/msfukui/smartchr/settings/JsonConfigService.kt:113-136 | the loop cuts the written objects of portable mappings back into those mappings |
| JsonRoundTrip.SplitStopsAtFailure | src/main/kotlin/com/github/msfukui/smartchr/settings/JsonConfigService.kt:121-126 | an object that fails to read aborts the whole loop with that error, whatever follows |
| JsonRoundTrip.MappingsKeyMatches | src/main/kotlin/com/github/msfukui/smartchr/settings/JsonConfigService.kt:209-215 | the written `"mappings":` satisfies the structure check |
| JsonRoundTrip.FramedBrackets | src/main/kotlin/com/github/msfukui/smartchr/settings/JsonConfigService.kt:96-107 | in text framed as the writer frames it, the reader finds `"mappings"`, the `[` and the last `]` at the writer's positions |
| JsonRoundTrip.ParseFramed | src/main/kotlin/com/github/msfukui/smartchr/settings/JsonConfigService.kt:79-138 | framed text reads as the split of its trimmed inside, or as no mappings when the inside is blank |
| JsonRoundTrip.FramedSplit | src/main/kotlin/com/github/msfukui/smartchr/settings/JsonConfigService.kt:79-138 | framed text around objects reads as the split of those objects |
| JsonRoundTrip.DocumentFramed | src/main/kotlin/com/github/msfukui/smartchr/settings/JsonConfigService.kt:220-259 | the written document for some mappings is the frame around their joined objects |
| JsonRoundTrip.EmptyRoundTrip | src/main/kotlin/com/github/msfukui/smartchr/settings/JsonConfigService.kt:224-225 | the document written for no mappings reads back as no mappings |
| JsonRoundTrip.BadObjectFailsDocument | src/main/kotlin/com/github/msfukui/smartchr/settings/JsonConfigService.kt:140-142 | if the first object of a document has no non-empty candidate, the whole read fails |
| JsonRoundTrip.RoundTrip | src/main/kotlin/com/github/msfukui/smartchr/settings/JsonConfigService.kt:220-259 | reading back the document written for portable mappings gives the same mappings, in the same order |

A mapping is *portable* (`JsonRoundTrip.Portable`) under three conditions:
- its key is not `"`, `{` or `}`;
- every candidate and every file type is non-empty and free of `"` `,` `[` `]` `{` `}`;
- its file-type list is non-empty.

The writer escapes nothing, so a mapping outside this condition is not written in a way the
reader can recover:
- a `,` inside a candidate splits it into two;
- a `"` ends the value early;
- a brace throws off the object splitter;
- an empty candidate is dropped;
- an empty file-type list comes back as `["*"]`.

## Left out

- File I/O and paths are outside the model. This covers `loadMappingsFromFile`,
  `saveMappingsToFile`, `getDefaultConfigFilePath`, `createDefaultConfigFile` and
  `migrateFromXmlSettings`. They only read and write files around the writer and reader
  modelled here.
- Platform wiring is outside the model, because it is IntelliJ lifecycle and Swing UI code
  with no logic of its own. This covers `SmartChrStartupListener.kt`,
  `SmartChrConfigurable.kt`, `SmartChrSettingsComponent.kt`, `SmartChrSettings.getInstance`,
  `getState`, and `loadState` with its reflective bean copy.
- The editor is a string and a caret offset. `WriteCommandAction`, `Editor`, `CaretModel`
  and `Document` are not modelled.
- `getFileType` (the PSI lookup) becomes a file-type string parameter.
- `System.currentTimeMillis()` becomes the `now` parameter.
- Characters: a Dafny `char` is a Unicode scalar value, while a Kotlin `Char` is a UTF-16
  code unit. Lengths, `indexOf` positions and caret offsets in the model count scalar values,
  whereas the source counts code units. For text outside the Basic Multilingual Plane, such
  as an emoji, the source's `firstOrNull()` (in `parseSingleMapping` and `getMappings`)
  takes only the high surrogate as the key, where `KeyField` and `FromState` take the whole
  character, and the source's offsets differ from the model's. The model agrees with the source for text in the
  Basic Multilingual Plane only.
- The handler's `ConcurrentHashMap` is a value-level `map<char, KeyState>` threaded through
  the calls; concurrent access is not modelled.
- The original handler's `execute` is represented by the `PassThrough` result, because the
  original handler is code outside the plug-in.
- Exception messages are not modelled. The causes are the `JsonError` cases, which the
  source wraps in one `IllegalArgumentException`.
- General regular expressions are not modelled. Only the four fixed patterns are, each by
  its own scanner.
- KeyState.currentIndex: it is a `nat` rather than a 32-bit `Int`. The only writer stores a
  valid candidate index, so the wrap-around of `currentIndex + 1` at `Int.MAX_VALUE` cannot
  arise.
- KeyState.lastTypedTime: the times are unbounded integers rather than 64-bit `Long`s. The
  overflow of `currentTime - lastTypedTime` is not modelled, because it needs times about
  292 million years apart.
- JsonConfig.GenerateJson: it builds the text object by object and line by line
  (`ObjectText`, `Entries`) instead of appending to a `StringBuilder`. The characters
  produced are the same.
- JsonConfig.SplitObjects: it takes the reader of one object as a parameter. `ParseJson`
  always passes `ParseSingleMapping`, as `parseJsonToMappings` calls `parseSingleMapping`.
  The splitter lemmas are stated for any reader. Its own contract only bounds the number of
  mappings read; what it reads is stated by `SplitPackedTexts`, `SplitWritten` and
  `SplitStopsAtFailure`.
- JsonConfig.IsValidJsonStructure: its own contract states only what any passing text must
  contain. Its exact meaning, a key pattern at some position, is `IsValidJsonStructureMeans`.
- JsonConfig.FindField: its leftmost-match property is stated in the lemmas
  `FindFieldNone` and `FindFieldAt`, not in its own contract.
- JsonConfig.ParseJson: its own contract covers the rejections and a document without
  `"mappings"`. Locating the array is stated by `ParseJsonMissingBracket` and
  `ParseJsonArrayContent`, and the object splitting by the `SplitObjects` lemmas. What it
  returns for written documents is stated by `JsonRoundTrip.RoundTrip`, `ParseFramed` and
  `BadObjectFailsDocument`. Documents the writer did not produce have no round-trip
  statement.
- JsonRoundTrip.RoundTrip: it holds only for portable mappings, for the reasons given
  under the table.
- JsonRoundTrip.BadObjectFailsDocument: it is stated for the first object of a document. A
  failing later object aborts the loop in the same way (`SplitObjects` returns the
  `Failure`), but no lemma states that.
