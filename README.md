# Editor demo: suggestion, slash-command and ghost-text logic in Dafny

This project models the parts of the Editor.js / TipTap editor demo that have logic of their own. The rest of the demo is editor configuration and rendering.

- **The mock suggestion provider** (`AiSuggester`, from `src/editor/aiSuggester.ts`). It continues the last word before the caret. The text trimmed, and the last word, must each have at least 3 characters. Four known words, in any letter case, get a canned continuation. Any other word gets a fixed filler. A wrapper turns a provider failure into `""`.
- **The slash-command field of the TipTap editor** (`CommandInput`, from `src/editor/CommandInput.tsx`). Typing `/` enters command mode, and the text after the last `/` becomes the query. Commands are filtered by label or keyword without regard to case. The matches are grouped in first-seen order. Arrow keys move a wrap-around highlight. Enter, or a press on an item, deletes the `/query` before the editor's caret and runs the command.
- **The ghost-text controller of the Editor.js page** (`GhostSuggestion`, from `src/Component/EditorJS.tsx`). It keeps one debounce slot and one active-suggestion slot. Tab inserts the suggestion at the caret. Escape dismisses it. Arrow keys only move the overlay, whose offset is clamped to be non-negative.
- **The Editor.js slash popover** (`SlashMenu`, from `src/SlashMenu.tsx`). `/` opens it with an empty filter. Escape or a click outside closes it. Clicking an item runs it and closes the popover.

The shared modules are:

- `Text`: JavaScript's `\s` class, lower-casing, `includes`, `trim`, `lastIndexOf`, and `split(/\s+/).filter(Boolean)` as `Words`.
- `Seqs`: `filter`, with the order-preserving subsequence relation it satisfies.
- `Geometry`: rectangles and offsets in whole pixels.
- `Wrappers`: `Option`.

Stateful parts are classes:

- `CommandInput.CommandField` holds `value`, `isCommandMode`, `query` and `activeIndex`.
- `CommandInput.TextEditor` is the editor text, block start and caret that the field edits.
- `GhostSuggestion.Controller` holds the suggestion ref, the ghost text, the overlay position and the debounce slot.
- `GhostSuggestion.Page` is the editor blocks and the selection.
- `SlashMenu.Menu` holds `open`, `q` and `pos`.

Each method's `ensures` gives its whole new state. Each `Valid()` states the invariant the methods keep:

- Outside command mode the highlight index is 0.
- At most one debounce timer is pending, and it is the one in the slot.
- The ghost text always equals the active suggestion.
- The overlay offset is never negative.

Editor commands (`action`, `run`) are opaque: the model records the command's id, or the block an item inserts, in `applied` or `inserted`. A command's `label` field is called `title` here, because `label` is a Dafny keyword.

Behaviour of the code worth noting:

- Tab inserts the suggestion at the start of the selected range. It does not replace the selected text, which stays after the new caret.
- The arrow keys never dismiss the suggestion.
- A pending timer's id is never cleared from the debounce slot after it fires. Cancelling an already-fired timer is harmless.
- Editing the query inside command mode does not reset `activeIndex`, which can leave it out of range. Enter then falls back to the first match (`Selected`). Arrow keys wrap it back into range.
- The filler string in `aiSuggester.ts` is the three characters U+00E2 U+20AC U+00A6 ("â€¦"). That is an ellipsis whose UTF-8 bytes were decoded as Windows-1252. The model keeps those three characters (`AiSuggester.Fallback`).

## Model

| member | source | states |
|---|---|---|
| `Text.SpaceIsNoWordChar` | src/editor/aiSuggester.ts:22 | no character of the model's `\s` set (`IsSpace`: the ASCII controls tab to carriage return, space, U+00A0, U+1680, U+2000-U+200A, U+2028, U+2029, U+202F, U+205F, U+3000, U+FEFF) is an ASCII letter, a digit or `/` |
| `Text.Lower` | src/editor/aiSuggester.ts:31 | the model's one-character `toLowerCase`: A-Z move up by 32, every other character is kept |
| `Text.ToLower` | src/editor/aiSuggester.ts:31 | the model's ASCII-only `toLowerCase` keeps the length and applies `Lower` to each character on its own |
| `Text.Includes` | src/editor/CommandInput.tsx:150 | `includes` can hold only when the searched-for string is no longer than the text |
| `Text.LeadingSpace` | src/editor/aiSuggester.ts:19 | the count of leading characters that are all white space and are followed by a non-white-space character or the end |
| `Text.TrailingSpace` | src/editor/aiSuggester.ts:19 | the count of trailing characters that are all white space and are preceded by a non-white-space character or the start |
| `Text.TrimStart` | src/editor/aiSuggester.ts:19 | `trimStart` drops exactly the leading white space, so the result does not start with white space |
| `Text.TrimEnd` | src/editor/aiSuggester.ts:19 | `trimEnd` drops exactly the trailing white space, so the result does not end with white space |
| `Text.Trim` | src/editor/aiSuggester.ts:19 | `trim()` is no longer than its input and neither starts nor ends with white space |
| `Text.TrimIsInfix` | src/editor/aiSuggester.ts:19 | `trim()` keeps a contiguous slice of the text and drops only white space before and after it |
| `Text.LastIndexOf` | src/editor/CommandInput.tsx:214 | `lastIndexOf` is -1 exactly when the character is absent; otherwise that index holds it and no later index does |
| `Text.WordLength` | src/editor/aiSuggester.ts:22 | the leading run of non-white-space characters ends at the first white space or at the end |
| `Text.Words` | src/editor/aiSuggester.ts:22 | every element of `split(/\s+/).filter(Boolean)` is a non-empty run with no white space |
| `Text.LastWord` | src/editor/aiSuggester.ts:22 | `pop() ?? ""` is `""` exactly when the text is all white space, and otherwise a word no longer than the text |
| `Text.WordsEmptyIffAllSpace` | src/editor/aiSuggester.ts:22 | there are no words exactly when the text is all white space (so `pop() ?? ""` gives `""` exactly then) |
| `Text.WordsOfWord` | src/editor/aiSuggester.ts:22 | a single word splits into itself alone |
| `Text.WordsAtSpace` | src/editor/aiSuggester.ts:22 | splitting the text at a white-space character splits its word list there |
| `Text.TrimStartIsSuffix` | src/editor/aiSuggester.ts:19 | the text is the dropped white space followed by what `trimStart` keeps, and the dropped part is all white space |
| `Text.TrimEndIsPrefix` | src/editor/aiSuggester.ts:19 | the text is what `trimEnd` keeps followed by the dropped white space, and the dropped part is all white space |
| `Text.WordsTrim` | src/editor/aiSuggester.ts:19-22 | trimming never changes the word list |
| `Text.LastWordWithinTrim` | src/editor/aiSuggester.ts:19-23 | the last word is never longer than the trimmed text |
| `Text.LastWordIgnoresPrefix` | src/editor/aiSuggester.ts:22 | text before a white-space character never changes the last word once a word follows it |
| `Text.LastWordOfWord` | src/editor/aiSuggester.ts:22 | a single word with white space after it is its own last word |
| `Seqs.Filter` | src/SlashMenu.tsx:95-97 | `filter` keeps exactly the elements satisfying the predicate, in their original order (a subsequence) |
| `Seqs.FilterAll` | src/editor/CommandInput.tsx:147 | when every element passes, `filter` returns the whole sequence |
| `AiSuggester.FetchSuggestion` | src/editor/aiSuggester.ts:9-36 | a trimmed text shorter than 3, or a last word shorter than 3, gives `""` |
| `AiSuggester.FetchByLastWord` | src/editor/aiSuggester.ts:19-35 | the provider equals a rule on the last word alone: `""` below 3 characters, else the canned entry of its lower-case form, else the filler; the trimmed-length floor never decides |
| `AiSuggester.FetchEmptyIffShortWord` | src/editor/aiSuggester.ts:19-35 | the suggestion is `""` if and only if the last word has fewer than 3 characters |
| `AiSuggester.FetchIgnoresCase` | src/editor/aiSuggester.ts:31-32 | last words equal up to letter case get the same suggestion |
| `AiSuggester.FetchDependsOnlyOnLastWord` | src/editor/aiSuggester.ts:18-35 | contexts with the same last word get the same suggestion, whatever the block type and the earlier text |
| `AiSuggester.FetchIgnoresPrefix` | src/editor/aiSuggester.ts:22 | any text followed by white space before the last word, and any block type, leave the suggestion unchanged |
| `AiSuggester.FetchCanned` | src/editor/aiSuggester.ts:25-32 | a last word whose lower-case form is hello/intro/exam/write gets " world"/"duction"/"ple"/" more details" |
| `AiSuggester.FetchFallback` | src/editor/aiSuggester.ts:35 | any other last word of 3 or more characters gets the filler |
| `AiSuggester.FetchKnownWord` | src/editor/aiSuggester.ts:25-32 | a known word typed alone in lower case gets its canned continuation |
| `AiSuggester.FetchHello` | src/editor/aiSuggester.ts:26 | "hello" continues with " world" |
| `AiSuggester.FetchTooShort` | src/editor/aiSuggester.ts:19 | "ab" gets no suggestion |
| `AiSuggester.CannedNonEmpty` | src/editor/aiSuggester.ts:25-30 | no canned continuation is empty, so a known word always gets a truthy answer |
| `AiSuggester.LowerCaseWord` | src/editor/aiSuggester.ts:31 | a word of lower-case letters is a word and its own lower-case form |
| `AiSuggester.MockProvider` | src/editor/aiSuggester.ts:9-36 | the mock provider never throws and never resolves to nothing: it resolves to the mock's answer |
| `AiSuggester.GetSuggestion` | src/editor/aiSuggester.ts:38-46 | `getSuggestion` with the mock behind it returns the mock's answer |
| `AiSuggester.GetSuggestionFrom` | src/editor/aiSuggester.ts:41-46 | the wrapper returns the provider's string when it resolves to one, and `""` when it resolves to nothing or throws |
| `AiSuggester.GetSuggestionIsMock` | src/editor/aiSuggester.ts:38-46 | with the mock behind it, `getSuggestion` returns the mock's answer, `""` exactly when the last word is shorter than 3 |
| `AiSuggester.SuggestIntro` | src/editor/aiSuggester.ts:27 | `getSuggestion` on "intro" is "duction" |
| `CommandInput.GroupOf` | src/editor/CommandInput.tsx:158 | a command's own group when it has one, otherwise "Style" |
| `CommandInput.Matches` | src/editor/CommandInput.tsx:149-151 | every command matches the empty query, and a command whose lower-cased label contains the query matches it |
| `CommandInput.EmptyQueryMatchesAll` | src/editor/CommandInput.tsx:147-152 | every command matches the empty query |
| `CommandInput.FilteredCommands` | src/editor/CommandInput.tsx:144-153 | empty outside command mode; all commands for a blank trimmed query; otherwise an order-preserving subsequence holding exactly the commands whose lower-cased label or some keyword contains the lower-cased trimmed query |
| `CommandInput.SpaceQueryIsTrimmed` | src/editor/CommandInput.tsx:146-147 | a query of one space lists all commands |
| `CommandInput.FirstSeenDistinct` | src/editor/CommandInput.tsx:159 | a `Map` lists each group name once |
| `CommandInput.FirstSeenCovers` | src/editor/CommandInput.tsx:157-159 | the group of every command is listed |
| `CommandInput.FirstSeenSnoc` | src/editor/CommandInput.tsx:157-159 | one more command adds its group at the end of the list when `has` finds it missing, and otherwise leaves the list alone |
| `CommandInput.FirstIndex` | src/editor/CommandInput.tsx:158-159 | the index of a group's first command: it has that group and no earlier command does |
| `CommandInput.FirstIndexUnique` | src/editor/CommandInput.tsx:158-159 | those facts determine the first index uniquely |
| `CommandInput.FirstIndexSnoc` | src/editor/CommandInput.tsx:157-161 | appending a command changes a group's first index only when the group had none |
| `CommandInput.FirstSeenOrder` | src/editor/CommandInput.tsx:155-163 | every listed group occurs, and groups are listed in the order of their first command |
| `CommandInput.MembersIsFilter` | src/editor/CommandInput.tsx:157-160 | a group's list is the commands filtered by their group, so it keeps list order |
| `CommandInput.MembersSnoc` | src/editor/CommandInput.tsx:160 | one more command is pushed onto its own group's list and no other |
| `CommandInput.MembersNone` | src/editor/CommandInput.tsx:157-161 | a group that no command has collects nothing |
| `CommandInput.MembersIff` | src/editor/CommandInput.tsx:158-160 | a command is in a group's list exactly when it is in the list and its group (default "Style") is that group |
| `CommandInput.GroupsCover` | src/editor/CommandInput.tsx:158-160 | each command sits in the listed group named by its `group`, or "Style" when that is unset |
| `CommandInput.GroupsDisjoint` | src/editor/CommandInput.tsx:158-160 | no command sits in two listed groups |
| `CommandInput.GroupsNonEmpty` | src/editor/CommandInput.tsx:159-160 | every listed group holds at least its first command |
| `CommandInput.GroupStepKnown` | src/editor/CommandInput.tsx:157-161 | a loop pass for a group already in the map (`push` only) keeps the map equal to the per-group lists of the commands seen so far, and the key order equal to the first-seen order |
| `CommandInput.GroupStepNew` | src/editor/CommandInput.tsx:157-161 | a loop pass for a new group (`set` to `[]`, then `push`) keeps the same two facts, with the group added last |
| `CommandInput.BuildGroupMap` | src/editor/CommandInput.tsx:156-161 | after the loop, the map's keys in insertion order are the first-seen groups and each key holds its group's commands in list order |
| `CommandInput.GroupByFirstSeen` | src/editor/CommandInput.tsx:155-163 | `Array.from(map.entries())` lists each first-seen group with its commands in list order |
| `CommandInput.KeyOf` | src/editor/CommandInput.tsx:191-206 | each of "ArrowDown", "ArrowUp", "Enter" and "Escape" names its own key, and every other name is an ignored key |
| `CommandInput.Span` | src/editor/CommandInput.tsx:193 | `Math.max(1, n)` is at least 1 and at least n |
| `CommandInput.NextIndex` | src/editor/CommandInput.tsx:191-193 | ArrowDown gives an index below `max(1, n)`, one more, or 0 after the last |
| `CommandInput.PrevIndex` | src/editor/CommandInput.tsx:194-199 | ArrowUp gives an index below `max(1, n)`, one less, or the last after 0 |
| `CommandInput.NextPrevInverse` | src/editor/CommandInput.tsx:191-199 | for an index in range, Down then Up, and Up then Down, restore it |
| `CommandInput.Selected` | src/editor/CommandInput.tsx:202 | Enter picks `filtered[activeIndex]`, or the first match when the index is out of range, and nothing exactly when there are no matches |
| `CommandInput.SlashQuery` | src/editor/CommandInput.tsx:214-221 | no query exactly when there is no `/`; otherwise the query is the text after the last `/` and holds no `/` |
| `CommandInput.HasSpaceWiderSuffix` | src/editor/CommandInput.tsx:21 | white space in a suffix is also in every longer suffix |
| `CommandInput.SlashQueryStart` | src/editor/CommandInput.tsx:18-22 | the deletion starts at the last `/` when no white space follows it; there is none exactly when there is no `/` or every `/` has white space after it |
| `CommandInput.DeleteSlashQuery` | src/editor/CommandInput.tsx:13-26 | either nothing changes, or exactly the `/` and the space-free query between it and the caret are deleted and the caret moves to where the `/` was |
| `CommandInput.TextEditor.RemoveTrailingSlashQuery` | src/editor/CommandInput.tsx:13-26 | the editor's text and caret become `DeleteSlashQuery` of the old ones; block start and applied commands are unchanged |
| `CommandInput.TextEditor.Apply` | src/editor/CommandInput.tsx:183 | a command's action is recorded after the earlier ones |
| `CommandInput.CommandField.constructor` | src/editor/CommandInput.tsx:135-142 | starts with an empty field, outside command mode, highlight 0, the default commands |
| `CommandInput.CommandField.OnChange` | src/editor/CommandInput.tsx:211-222 | stores the new text; with a `/` command mode turns on and the query is the text after the last `/`, otherwise command mode is off, the query is empty and the highlight resets |
| `CommandInput.CommandField.OnFilterChange` | src/editor/CommandInput.tsx:320-322 | the popover's own field sets the query and keeps the invariant |
| `CommandInput.CommandField.RunOption` | src/editor/CommandInput.tsx:180-187 | with an editor: the `/query` is removed, the command applied, command mode left and value and query cleared; without one nothing changes |
| `CommandInput.CommandField.OnItemMouseDown` | src/editor/CommandInput.tsx:282-285 | a press on a listed item runs it: the `/query` is deleted, the block start kept, the command applied and command mode left with value, query and highlight cleared |
| `CommandInput.CommandField.OnMouseDownAnywhere` | src/editor/CommandInput.tsx:169-175 | a press outside the component leaves command mode; inside it changes nothing |
| `CommandInput.CommandField.OnEnter` | src/editor/CommandInput.tsx:200-205 | with an editor and a match, runs `Selected` (the highlighted match, or the first); otherwise changes nothing |
| `CommandInput.CommandField.OnKeyDown` | src/editor/CommandInput.tsx:189-209 | ignored outside command mode; arrows move the highlight with wrap-around; Enter runs the selected match if there is one and an editor; Escape leaves command mode without preventing the default |
| `GhostSuggestion.ClampedOffset` | src/Component/EditorJS.tsx:118-119 | `Math.max(0, a - b)` is non-negative, at least `a - b`, and one of the two |
| `GhostSuggestion.OverlayPosition` | src/Component/EditorJS.tsx:113-121 | no position when either rectangle is missing; otherwise left and top are the clamped, non-negative offsets of the caret from the container |
| `GhostSuggestion.TextBeforeCursor` | src/Component/EditorJS.tsx:96-111 | `""` without a range inside an editor block; otherwise the prefix of the block's text ending at the range's end |
| `GhostSuggestion.InsertAt` | src/Component/EditorJS.tsx:139-140 | the text before the insertion point is kept, the inserted text follows, then the rest |
| `GhostSuggestion.Page.InsertAtSelection` | src/Component/EditorJS.tsx:138-144 | the text goes in at the start of the range and the range collapses just after it |
| `GhostSuggestion.Controller.constructor` | src/Component/EditorJS.tsx:16-22 | no suggestion, no ghost, position (0, 0), empty debounce slot |
| `GhostSuggestion.Controller.Debounce` | src/Component/EditorJS.tsx:24-27 | the pending timer is cancelled and replaced: exactly one timer, the new one, is pending |
| `GhostSuggestion.Controller.UpdatePositionFromCaret` | src/Component/EditorJS.tsx:113-121 | the position is unchanged when a rectangle is missing, else the clamped offset |
| `GhostSuggestion.Controller.TimerFires` | src/Component/EditorJS.tsx:123-125 | the timer is consumed and the request is the text before the cursor |
| `GhostSuggestion.Controller.GhostVisible` | src/Component/EditorJS.tsx:191 | the overlay is rendered exactly when the ghost text is non-empty, that is, while a suggestion is active |
| `GhostSuggestion.Controller.SuggestionArrived` | src/Component/EditorJS.tsx:125-128 | the active slot and the ghost both become the fetched string, the overlay is shown exactly when that string is non-empty, and the position is recomputed |
| `GhostSuggestion.Controller.TimerFiresWithMock` | src/Component/EditorJS.tsx:123-129 | with the mock provider, the active suggestion and the ghost become `getSuggestion` of the text before the cursor, the timer is consumed, and the position is recomputed as `OverlayPosition` or kept when a rectangle is missing |
| `GhostSuggestion.Controller.OnKeyUp` | src/Component/EditorJS.tsx:159-161 | restarts the debounce timer: exactly the new timer is pending and the timer counter moves on by one |
| `GhostSuggestion.Controller.OnMouseUp` | src/Component/EditorJS.tsx:163-166 | moves the overlay and restarts the debounce timer: exactly the new timer is pending and the timer counter moves on by one |
| `GhostSuggestion.Controller.OnSelectionChange` | src/Component/EditorJS.tsx:171 | only moves the overlay |
| `GhostSuggestion.Controller.OnKeyDown` | src/Component/EditorJS.tsx:131-157 | Tab with a suggestion and a range inserts exactly it at the caret, collapses the caret after it and clears both slots; Tab with a suggestion but no range changes nothing; Tab without one does nothing; Escape clears both slots; arrows leave the suggestion and only reposition; the default is prevented exactly for Tab with a suggestion |
| `GhostSuggestion.AcceptExtendsTextBeforeCursor` | src/Component/EditorJS.tsx:139-142 | after accepting at a collapsed caret, the text before the cursor is the old one followed by the suggestion |
| `GhostSuggestion.InsertIntro` | src/Component/EditorJS.tsx:139-140 | inserting "duction" after "intro" gives "introduction" |
| `GhostSuggestion.FiveKeyUps` | src/Component/EditorJS.tsx:24-27 | five key-ups in a row leave a single pending timer, so at most one fetch |
| `GhostSuggestion.AcceptIntro` | src/Component/EditorJS.tsx:132-146 | typing "intro", letting the timer fire and pressing Tab gives "introduction" and clears the suggestion |
| `SlashMenu.TitleContains` | src/SlashMenu.tsx:95-97 | an item passes exactly when its lower-cased label contains the lower-cased query, so never when the query is longer than the label |
| `SlashMenu.FilteredItems` | src/SlashMenu.tsx:95-97 | an order-preserving subsequence holding exactly the items whose lower-cased label contains the lower-cased, untrimmed query |
| `SlashMenu.EmptyQueryListsAll` | src/SlashMenu.tsx:21-57 | the empty query lists every item, for the menu's items all 10 |
| `SlashMenu.SpaceQueryIsNotTrimmed` | src/SlashMenu.tsx:96 | a query of one space keeps "Header 1" and drops "Table" |
| `SlashMenu.Menu.constructor` | src/SlashMenu.tsx:11-16 | closed, empty query, position (0, 0) |
| `SlashMenu.Menu.Rendered` | src/SlashMenu.tsx:99-128 | nothing when closed; "No matches" when open without matches; otherwise the matches |
| `SlashMenu.Menu.OnKeyDown` | src/SlashMenu.tsx:65-81 | `/` always opens the popover with an empty query, and moves it below the caret (scroll offsets and a 6-pixel gap added) only when there is a caret rectangle; Escape closes it; other keys change nothing |
| `SlashMenu.Menu.OnDocumentClick` | src/SlashMenu.tsx:84-86 | a click outside the popover closes it; one inside leaves it as it was |
| `SlashMenu.Menu.OnFilterInput` | src/SlashMenu.tsx:111 | the filter field sets the query |
| `SlashMenu.Menu.OnItemClick` | src/SlashMenu.tsx:118-121 | clicking a listed item runs it (records the block it inserts) and then closes the popover |

## Left out

- `CommandInput.CommandField.OnKeyDown`: takes the key already classified by `KeyOf(e.key)`, not the raw key name. `KeyOf` states the classification.
- `Text.Lower`, `Text.ToLower`: fold only the ASCII letters A-Z. JavaScript's `toLowerCase` folds all of Unicode, and can change a string's length. The suggester is unaffected: its four keys are ASCII, and the only other character that lower-cases to an ASCII letter is U+212A (KELVIN SIGN, to `k`), which no key contains. The filters are affected: a query of U+212A lists "Ask AI", "Task list" and "Code block" in the command field, and "Checklist" and "Image (pick)" in the popover, in JavaScript, but nothing in the model.
- Strings are sequences of Unicode scalar values, not of UTF-16 code units, so lengths of text outside the Basic Multilingual Plane differ from JavaScript's.
- The canned table is a 4-entry map. The source looks words up in a plain object, so an inherited key such as `constructor` also counts as found there. That quirk is not reproduced.
- Asynchrony: the provider's promise is a `ProviderOutcome` value. A fetch started before a later one may resolve after it. The model lets `SuggestionArrived` be applied in any order, but says nothing about which request an answer belongs to.
- Timer delays (350 ms, and the zero-delay `setTimeout` around the popover's `/` handling) are not modelled. Firing a timer, and the `/` handling, are steps the caller takes.
- Caret geometry (`getCaretRect` in both components, the client rects, the zero-width marker, scroll offsets) is not modelled. Rectangles and scroll offsets are inputs, in whole pixels rather than floating point.
- `GhostSuggestion.TextBeforeCursor`: the range is taken to end inside the block of its anchor. A range that ends in a later block, and therefore crosses block text, is not modelled.
- `GhostSuggestion.Page.InsertAtSelection`: a range outside the editor blocks (`Elsewhere`) receives the text somewhere in the page outside the model. The model records only that no block changes.
- `CommandInput.DeleteSlashQuery`: TipTap positions are flat character offsets here. The node boundaries of ProseMirror positions, and the `"\n"` that `textBetween` puts for leaf nodes, are not modelled.
- Editor commands are opaque ids. This covers the TipTap `chain()` calls, `window.prompt` in the image command, Editor.js `blocks.insert` and the image file picker.
- Focus handling, `preventDefault` on a command item's mouse-down, and listener registration and teardown are not modelled.
- The rendering is not modelled: the command popover's markup, the active-item highlight via `findIndex` and the ghost overlay's style.
- Persistence is not modelled: the editor content saved to and restored from `localStorage`.
- `src/tools/FileTool.ts` is not part of this model: it is DOM construction, a file picker and floating-point size formatting. Neither is any other configuration or rendering file: `extensions.ts`, `Editor.tsx`, `EditorJsDemo.tsx`, `App.tsx`, `editor/SlashMenu.tsx` and `Bubble.tsx`.
