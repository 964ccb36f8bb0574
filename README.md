# AI vision assistant: planner replies, input automation and window listing

This project models the three pieces of the assistant that hold real logic.

- **The planner client** (`AIVision`, module `Vision`). It covers:
  - the API-key check at construction;
  - the code-fence cleaning every reply handler applies before `json.loads`;
  - what `get_actions_from_instruction`, `find_element` and `verify_action_completed` return for a reply, including their fallbacks when decoding fails;
  - the way `chat_with_context` extends a caller's conversation history.
- **The input controller** (`Automation`, module `InputAutomation`).
  - It is a class whose `trace` records every input primitive it issues and every pause it sleeps.
  - Whether a primitive raises (an unknown key, the pyautogui fail-safe corner, a non-numeric `seconds`) is decided by the environment function `fails`. That function sees everything issued before.
  - `execute_action_sequence` is proved against `RunActions`. That function is the dispatch of each action dict, run through one generic step loop, `RunSteps`. The same loop, with other steps and pauses, specifies `press_tab` and `type_text_slow`.
- **The window listing** (`ScreenCapture`, module `ScreenCapture`). It covers:
  - the filtering loop of `get_all_windows` with its exception handler;
  - the case-insensitive first-match search of `find_window_by_title`;
  - the restore-then-activate control flow of `focus_window`;
  - the primary-monitor lookup of `get_screen_size`.

Supporting modules:
- `Common`: Option, Result and the Python exceptions that can escape.
- `PyStr`: the `str` operations the modelled code uses: `in`, `split` and `strip` in the cleaning chain, and `lower` in the title search. `Find` and `Join` are used to state the contract of `split`.
- `Json`: decoded JSON values, `dict.get`, truthiness and `*`-unpacking.

`json.loads` is a parameter `decode` of every handler. The planner call is a parameter too: a reply string, or `ask` for `chat_with_context`.

Behaviour of the code that the model follows as written:
- Planner replies are not validated. A decoded plan is returned as it is, with no clamping of coordinates and no key vocabulary.
- The dispatcher skips an unknown action type silently. The only thing it prints is a log line.
- The dispatcher builds no per-action report. It stops at the first exception, because nothing in the loop catches one. It does not check an abort signal before each action.
- A failed verification parse gives the explanation "Error al verificar cambios".

## Model

| member | source | states |
|---|---|---|
| `Vision.NewClient` | ai_vision.py:18-33 | A client exists iff the explicit key or else the environment key is a non-empty string, and the explicit key wins when non-empty. Otherwise the result is ValueError. The model name is fixed. |
| `Vision.CleanReply` | ai_vision.py:179-186 | The text handed to `json.loads` is an infix of the reply and contains no "```" marker. |
| `Vision.JsonFenceBranch` | ai_vision.py:181-182 | If the reply contains "```json", the decoded text is what follows its first occurrence, cut at the next "```json", then at the first "```", then stripped. |
| `Vision.BareFenceBranch` | ai_vision.py:183-184 | With "```" but no "```json", the decoded text lies between the first and second "```" (or runs to the end), stripped. |
| `Vision.NoFenceBranch` | ai_vision.py:185-186 | A reply without any "```" is only stripped of surrounding whitespace. |
| `Vision.CleanReplyIdempotent` | ai_vision.py:181-186 | Cleaning an already cleaned reply changes nothing. |
| `Vision.PlanFallback` | ai_vision.py:191-197 | The fallback plan is a dict with no actions, the single warning "Error al parsear respuesta de IA: " followed by the decoder's message, and success criteria "N/A". |
| `Vision.PlanFromReply` | ai_vision.py:176-197 | `get_actions_from_instruction` returns the decoded value unchanged. On a decode error it returns the fallback plan carrying that error's message. |
| `Vision.LocateFromReply` | ai_vision.py:248-267 | The coordinates come back iff the decoded dict has a truthy `found` and both `x` and `y`. `None` comes back iff decoding fails or `found` is falsy or absent. An exception escapes iff the value is not a dict, or `found` is truthy and `x` or `y` is missing. It is AttributeError for a value that is not a dict, KeyError("x") when `x` is missing, and KeyError("y") when only `y` is missing. |
| `Vision.VerdictFallback` | ai_vision.py:399-406 | The fallback verdict has `success` false, no detected changes, the explanation "Error al verificar cambios" and confidence "low". |
| `Vision.VerdictFromReply` | ai_vision.py:389-406 | `verify_action_completed` returns the decoded value unchanged, or the fallback verdict on a decode error. |
| `Vision.StripFences` | ai_vision.py:181-184 | The code-fence chain as written: after the first "```json" if present, else between the first two "```", else the whole reply. Its properties are stated by `CleanReply` and the three branch lemmas. |
| `Vision.HandlersSeeOnlyCleanedText` | ai_vision.py:179-397 | Each of the three handlers (lines 179-186, 250-257 and 391-397) gives the same answer for the cleaned reply as for the raw reply. |
| `Vision.PlanSeesOnlyCleanedText` | ai_vision.py:179-186 | Helper of `HandlersSeeOnlyCleanedText`: given that cleaning is idempotent (`CleanReplyIdempotent`), `get_actions_from_instruction` answers alike for a reply and for its cleaned text. |
| `Vision.LocateSeesOnlyCleanedText` | ai_vision.py:250-257 | Helper of `HandlersSeeOnlyCleanedText`: given that cleaning is idempotent, `find_element` answers alike for a reply and for its cleaned text. |
| `Vision.VerdictSeesOnlyCleanedText` | ai_vision.py:390-397 | Helper of `HandlersSeeOnlyCleanedText`: given that cleaning is idempotent, `verify_action_completed` answers alike for a reply and for its cleaned text. |
| `Vision.UserTurn` | ai_vision.py:288-304 | The turn `chat_with_context` adds: role "user", the screen image first and the user's text second. Its use is stated by `ChatWithContext`. |
| `Vision.ChatWithContext` | ai_vision.py:269-315 | A non-empty history is extended in place by exactly one user turn (image then text), and the extended list is sent. An empty or missing history is left unchanged, and only the new turn is sent. |
| `InputAutomation.ClickCall` | automation.py:150-155 | The click is positioned iff both coordinates are non-null; otherwise it happens at the pointer with the same button and count. |
| `InputAutomation.ScrollCall` | automation.py:199-202 | The scroll happens at a position iff both coordinates are non-null. |
| `InputAutomation.Dispatch` | automation.py:285-314 | One iteration of the dispatcher: AttributeError iff the action is not a dict, and the only other exception is TypeError (from unpacking `keys`). |
| `InputAutomation.DispatchDefaults` | automation.py:288-311 | A field left out takes its default: text "", interval 0.05, key "enter", keys [], button "left", x and y None (an unpositioned click, a move to None), duration 0.5, seconds 1, amount 0. |
| `InputAutomation.DispatchOutcomes` | automation.py:287-314 | For a dict action, exactly the unknown types are skipped. The only dict action that raises is a `hotkey` whose `keys` cannot be star-unpacked. |
| `InputAutomation.ScrollIgnoresPosition` | automation.py:310-311 | A `scroll` action always scrolls at the pointer with `amount` (default 0), whatever `x` and `y` it carries. |
| `InputAutomation.ClickIsSingle` | automation.py:299-301 | A `click` action is one single click, positioned iff both `x` and `y` are non-null. |
| `InputAutomation.RunSteps` | automation.py:284-318 | The loop as a function: each step is attempted in order and followed by the pause, and the first raise ends it. Its properties are stated by `CompletedRunIsBlocks`, `AbortIsFinal`, `AbortedRunStops` and `CompletedRunCounts`. |
| `InputAutomation.RunActions` | automation.py:273-319 | `execute_action_sequence` as a function: `RunSteps` over the dispatch of each action with a 0.1 s pause. |
| `InputAutomation.Steps` | automation.py:284-314 | One dispatch per action, in list order. |
| `InputAutomation.Attempt` | automation.py:284-317 | An action issues its one primitive or nothing. It raises iff the dispatch raises, or the issued primitive fails in the trace so far. |
| `InputAutomation.CompletedRunIsBlocks` | automation.py:284-319 | A run that completes visits every step once, in order: its events are each step's call (if any) followed by its pause, and no step raised. |
| `InputAutomation.AbortIsFinal` | automation.py:284-317 | Once a prefix of the loop has raised, the later steps change neither the events nor the status. |
| `InputAutomation.AbortedRunStops` | automation.py:284-317 | An aborted run stops at step k. All earlier steps completed. The events are theirs plus, if a primitive failed, that one call with no pause. A raising dispatch issues nothing. |
| `InputAutomation.CompletedRunCounts` | automation.py:284-317 | A completed run over n steps has exactly n pauses and one call per step that issues a primitive. |
| `InputAutomation.IssuedAreRecognised` | automation.py:287-314 | When no dispatch raises, the number of issued primitives is the number of dict actions of a recognised type. |
| `InputAutomation.CompletedSequenceRaisesNowhere` | automation.py:273-319 | A sequence that runs to the end consisted only of dicts, and no action in it raised (no `hotkey` with keys that cannot be unpacked). |
| `InputAutomation.CompletedSequenceCounts` | automation.py:273-319 | A sequence that runs to the end issued one primitive per recognised action and slept 0.1 s after every action. |
| `InputAutomation.Issues` | automation.py:46-48 | Helper for the paced loops: one issued primitive per element, in order. |
| `InputAutomation.BlocksOfIssues` | automation.py:81-83 | In a loop that only issues primitives, calls and pauses alternate, call first. |
| `InputAutomation.TabPresses` | automation.py:81-82 | Helper for `PressTab`: `range(times)` Tab presses, none for a non-positive count. |
| `InputAutomation.Keystrokes` | automation.py:46-47 | Helper for `TypeTextSlow`: one single-character keystroke per character of the text, in order. |
| `InputAutomation.PressTabEvents` | automation.py:74-83 | A `press_tab(n)` that completes alternates exactly max(n, 0) Tab presses with 0.1 s pauses. |
| `InputAutomation.Automation.constructor` | automation.py:20-23 | A new controller has issued nothing and records the screen size it was given. |
| `InputAutomation.Automation.Rest` | automation.py:317 | A sleep appends one pause of the given length. |
| `InputAutomation.Automation.TypeText` | automation.py:27-36 | One `write` call with the text and interval. |
| `InputAutomation.Automation.TypeTextSlow` | automation.py:38-48 | The trace grows by the step loop over the text's keystrokes, each followed by `interval`. The method succeeds iff that loop completes. |
| `InputAutomation.Automation.PressKey` | automation.py:50-58 | One `press` call with the key. |
| `InputAutomation.Automation.Hotkey` | automation.py:60-68 | One `hotkey` call with the keys in order. |
| `InputAutomation.Automation.PressEnter` | automation.py:70-72 | One press of "enter". |
| `InputAutomation.Automation.PressTab` | automation.py:74-83 | The trace grows by the step loop over `times` Tab presses, each followed by 0.1 s. The method succeeds iff that loop completes. |
| `InputAutomation.Automation.PacedLoop` | automation.py:81-83 | The loop shared by `press_tab` and `type_text_slow` appends exactly the events of `RunSteps` over its primitives and stops at the first that raises. |
| `InputAutomation.Automation.CopyToClipboard` | automation.py:85-87 | One ctrl+c hotkey. |
| `InputAutomation.Automation.PasteFromClipboard` | automation.py:89-91 | One ctrl+v hotkey. |
| `InputAutomation.Automation.SelectAll` | automation.py:93-95 | One ctrl+a hotkey. |
| `InputAutomation.Automation.Undo` | automation.py:97-99 | One ctrl+z hotkey. |
| `InputAutomation.Automation.SaveFile` | automation.py:101-103 | One ctrl+s hotkey. |
| `InputAutomation.Automation.MoveMouse` | automation.py:116-126 | One absolute move with its duration. |
| `InputAutomation.Automation.MoveMouseRelative` | automation.py:128-137 | One relative move with its duration. |
| `InputAutomation.Automation.Click` | automation.py:139-155 | One click call, positioned iff both coordinates are given. |
| `InputAutomation.Automation.DoubleClick` | automation.py:157-165 | One left-button click call with two clicks. |
| `InputAutomation.Automation.RightClick` | automation.py:167-175 | One right-button click call with one click. |
| `InputAutomation.Automation.DragTo` | automation.py:177-188 | One drag call with its offset, duration and button. |
| `InputAutomation.Automation.Scroll` | automation.py:190-203 | One scroll call, positioned iff both coordinates are given. |
| `InputAutomation.Automation.Wait` | automation.py:249-257 | One sleep of the given seconds. |
| `InputAutomation.Automation.Act` | automation.py:284-314 | Iteration `i` of the dispatcher appends exactly what the dispatch of `actions[i]` issues, and returns what it raises. |
| `InputAutomation.Automation.ExecuteActionSequence` | automation.py:273-319 | The trace grows by exactly the events of `RunActions`, and the returned status is that run's status. |
| `ScreenCapture.Entry` | screen_capture.py:35-45 | An entry records the window object, the position it was found at, and the window's title, left, top, width, height, active and maximised state unchanged. |
| `ScreenCapture.Stop` | screen_capture.py:29-49 | The position of the first window whose inspection raises, or the number of windows. |
| `ScreenCapture.Scan` | screen_capture.py:31-45 | Only windows before the first raising inspection are listed, and only those with a title that are visible. Each entry copies its window's fields. Indices strictly increase. |
| `ScreenCapture.ScanComplete` | screen_capture.py:32-45 | Every window with a title that is visible, before the first raising inspection, is listed. |
| `ScreenCapture.StopIsFinal` | screen_capture.py:30-49 | After an inspection raises, the later windows do not affect the result. |
| `ScreenCapture.Listable` | screen_capture.py:34 | The filter `window.title and window.visible`: a non-empty title and a visible window. Its use is stated by `Scan`, `ScanComplete` and `ListedWhenNothingRaises`. |
| `ScreenCapture.ListedWhenNothingRaises` | screen_capture.py:31-45 | When nothing raises, a window is listed iff it has a title and is visible. |
| `ScreenCapture.IndexAtLeastPosition` | screen_capture.py:32-36 | Each entry's index is at least its position in the result. |
| `ScreenCapture.IndicesArePositionsIff` | screen_capture.py:32-36 | Entry indices equal list positions iff none of the enumerated windows before the list's length was filtered out. |
| `ScreenCapture.Listed` | screen_capture.py:29-49 | `get_all_windows()` as a function: nothing when enumeration raises, otherwise the entries of the scan. Its properties are stated by `Scan`, `ScanComplete`, `ListedWhenNothingRaises` and `IndicesArePositionsIff`. |
| `ScreenCapture.GetAllWindows` | screen_capture.py:22-49 | Returns exactly the listing: nothing when enumeration raises, otherwise the entries collected before the first raising inspection. |
| `ScreenCapture.FindWindowByTitle` | screen_capture.py:51-65 | Returns the first listed window whose lower-cased title contains the lower-cased substring. Returns nothing iff no listed window matches. |
| `ScreenCapture.TitleMatches` | screen_capture.py:63 | The test `title_substring.lower() in window['title'].lower()`. Its properties are stated by `FindWindowByTitle`, `EmptySubstringMatchesAll` and the three case lemmas below. |
| `ScreenCapture.EmptySubstringMatchesAll` | screen_capture.py:63 | The empty substring matches every title, so it selects the first listed window. |
| `ScreenCapture.TitleMatchLowersSubstring` | screen_capture.py:63 | Lower-casing the substring beforehand changes no match. |
| `ScreenCapture.TitleMatchIgnoresCase` | screen_capture.py:63 | Substrings that differ only in the case of ASCII letters match the same windows. |
| `ScreenCapture.TitleCaseIsIgnored` | screen_capture.py:63 | Windows whose titles differ only in the case of ASCII letters match the same substrings. |
| `ScreenCapture.FocusWindow` | screen_capture.py:67-85 | Succeeds iff inspection, the restore of a minimised window and activation all succeed. On success the window is restored and active. Whatever step raised leaves the rest unchanged. |
| `ScreenCapture.GetScreenSize` | screen_capture.py:173-181 | The size of monitor entry 1, or IndexError when there is no entry 1. |
| `ScreenCapture.SelectByPosition` | gui_app.py:445-449 | The callers' lookup yields an entry iff the index is within the list's bounds, and that entry is the one at that position. |
| `ScreenCapture.PositionLookupMissesShiftedEntry` | gui_app.py:445-449 | Once a window before a listed one was filtered out, looking that entry up by its own index yields another entry or nothing. |
| `ScreenCapture.SelectByIndex` | gui_app.py:434-449 | Yields the entry carrying the requested index, or nothing iff no entry carries it. |
| `ScreenCapture.SelectByIndexFindsEntry` | gui_app.py:434-449 | Every listed window is found again by its own index. |
| `PyStr.Contains` | ai_vision.py:181 | Python's `pat in s` (also at ai_vision.py:183 and screen_capture.py:63): the empty pattern is in every text, and a pattern longer than the text is in none. `Find` finds a position iff the pattern is contained. |
| `PyStr.Find` | ai_vision.py:182 | Used to state where `split` cuts: the leftmost occurrence of the pattern, or nothing iff the pattern is not in the text. |
| `PyStr.Split` | ai_vision.py:182 | `str.split` with a non-empty separator: the pieces join back to the text and contain no separator. There are at least two pieces iff the separator occurs. The first piece is the prefix before the first occurrence: no occurrence starts inside it, and one starts right after it. |
| `PyStr.SplitRest` | ai_vision.py:182 | After the first piece and the first separator, the remaining pieces are the split of the rest of the text. |
| `PyStr.Head` | ai_vision.py:182 | `s.split(sep)[0]`: the prefix of the text before the first separator, or the whole text when there is none. |
| `PyStr.SplitFirst` | ai_vision.py:182 | The first piece of a split is the head. |
| `PyStr.SplitPiecesAreInfixes` | ai_vision.py:182 | Every piece of a split is an infix of the text. |
| `PyStr.Strip` | ai_vision.py:186 | `str.strip` gives an infix of the text with no whitespace at either end, and everything removed before and after it is whitespace. |
| `PyStr.IsSpace` | ai_vision.py:186 | The characters `str.strip()` removes, exactly CPython's whitespace set. Space, tab, newline and carriage return (the whitespace of JSON) are removed, and no visible ASCII character is. |
| `PyStr.StripIdempotent` | ai_vision.py:186 | Stripping twice is stripping once. |
| `PyStr.Lower` | screen_capture.py:63 | `str.lower` on ASCII: same length, each upper-case letter replaced by its lower-case letter (code point + 32), everything else kept. |
| `PyStr.LowerIdempotent` | screen_capture.py:63 | Lower-casing twice is lower-casing once. |
| `PyStr.CaseVariantsLowerAlike` | screen_capture.py:63 | Strings that differ only in the case of ASCII letters lower-case to the same string. |
| `Json.Truthy` | ai_vision.py:259 | Python truthiness of a decoded value: false for None, false, zero and empty strings, lists and dicts. |
| `Json.Lookup` | automation.py:287 | `d[key]` on a dict decoded by `json.loads`: the value stored last under the key, or nothing when the key is absent. Its properties are stated by `LookupFindsLast`. |
| `Json.LookupFindsLast` | automation.py:287 | The lookup finds nothing iff no pair carries the key. Otherwise it finds the value of a pair with that key after which no pair carries the key. |
| `Json.Get` | automation.py:287 | `dict.get` returns the value `Lookup` finds, which `LookupFindsLast` shows is the value stored last under the key, or the default when the key is absent. |
| `Json.StarArgs` | automation.py:297 | `*v` unpacks a list's items, a string's characters or a dict's keys. Any other value raises TypeError. |

## Left out

- Image encoding, prompts, the Anthropic transport and `analyze_screen` are left out. They are I/O or text passed through unchanged. The planner's reply is a parameter.
- `json.loads` is an abstract `decode` parameter. Python's distinction between int and float is not kept: every number is a `real`. The `NaN`, `Infinity` and `-Infinity` that `json.loads` accepts have no `real`, so they are not modelled. `NaN` is truthy in Python, so a reply `{"found": NaN, "x": 1, "y": 2}` gives coordinates, and the model cannot express it.
- `PyStr.Lower`: folds ASCII letters only. Python's `str.lower` also folds non-ASCII letters.
- The `print` calls are not modelled. That includes the failures some of them could raise after the primitive has run: `' + '.join(keys)` on non-string keys, and `text[:50]` on non-string text.
- pyautogui's own 0.1 s pause after each call (automation.py:15) is not in the trace. Durations and intervals are recorded as arguments but not timed.
- `find_on_screen`, `click_on_image`, `get_mouse_position` and `take_screenshot` are not modelled. They are image search and file I/O in the input layer.
- `capture_full_screen`, `capture_window`, `capture_region`, `image_to_base64`, `save_screenshot` and `print_windows_list` are not modelled. They are screen grabs, encoding and printing.
- `InputAutomation.Automation.TypeTextSlow`: a negative `interval` makes `time.sleep` raise ValueError after the first keystroke. In the model the pause after a keystroke never fails.
- `ScreenCapture.FocusWindow`: activating a window does not deactivate the others. The state of other windows is the operating system's business.
- Raising on inspection is modelled as a per-window flag. Reading some of a window's properties but not others is not distinguished.
- `Json.StarArgs`: a dict is modelled as a list of key/value pairs. Unpacking one with duplicate keys yields each duplicate, where Python would yield the key once.

## Findings

| source | as written | input that shows it | evidently intended | confidence | as-written member | corrected member |
|---|---|---|---|---|---|---|
| gui_app.py:445-449 | The tree tag is an entry's `index` (its position among all enumerated windows). It is used as a position in a fresh `get_all_windows()` list, which only holds the windows with a title that are visible. The same misuse occurs in app.py:357-363 and app.py:177-183, through the indices sent by static/js/app.js:235-238. | An enumeration of three windows: an untitled one, then "A", then "B". The listing is `[A (index 1), B (index 2)]`. Selecting "A" sends 1, and position 1 holds "B", so "B" is focused. Selecting "B" sends 2, which is out of range, so nothing happens. | Look the entry up by its `index` field. | not executed | `ScreenCapture.PositionLookupMissesShiftedEntry` | `ScreenCapture.SelectByIndexFindsEntry` |
