# Proposal generator: verified model of its three pieces of logic

The proposal generator is a single web page. It collects project and client
details in a form and renders a text proposal from a fixed template. Most of
its code is layout. This project models the three parts that hold logic, in
Dafny, and proves what they promise.

- **The custom scroll viewport** (`scrollbar.dfy`, module `CustomScrollbar`).
  This is a scroll container that hides the native scrollbar and draws its own
  track and thumb. The thumb geometry is made of pure functions over `real`:
  `ThumbHeight`, `ThumbTop`, `ShowScrollbar`, `RenderedThumbHeight`,
  `MaxThumbTop`, `DragRatio` and `TrackClickTarget`. The component itself is the
  class `Viewport`. Its fields are the component state (`scrollTop`,
  `scrollHeight`, `clientHeight`) and the scroll offset of the container element
  (`containerScrollTop`). The track click and the drag write that offset, and the
  next measurement reads it back. The last field, `dragSessions`, holds the drag
  sessions whose move and up listeners are registered on the document, in
  registration order. The class has the methods `UpdateScroll`, `TrackClick`,
  `MouseDown`, `MouseMove` and `MouseUp`. A `DragSession` value records what a
  mousedown captures: the pointer position, the container offset, and the content
  and container heights of the render it happened in. Its `Target(y)` is the
  offset that a mousemove to `y` assigns.
- **The tag list editor** (`tags_input.dfy`, module `TagsInput`).
  `HandleKeyDown` and `RemoveTag` are pure functions. `HandleKeyDown` takes the
  tag list, the pending input text and the key. It returns an `Effect`: the list
  handed to `onChange` (if it is called) and the new input text. `RemoveTag` takes
  the tag list and an index and returns the list handed to `onChange`. `Trim` follows
  String.prototype.trim. It strips the ECMAScript WhiteSpace and LineTerminator
  characters from both ends: `LeadingEnd` finds where the leading whitespace
  ends, `TrailingStart` where the trailing whitespace starts, and the result is
  the part in between.
- **The proposal page** (`proposal_page.dfy`, module `ProposalPage`).
  `FormData` is the form record. `HandleInputChange` is its single-field update.
  `GenerateMockProposal` is the proposal template. A template literal is a list of
  fixed pieces with one interpolated value between each neighbouring pair, so the
  proposal is `Fill(ProposalPieces, ProposalValues(data, upper))`. The fixed
  pieces are a constant, the same for every form. `DownloadFilename` is the name
  the downloaded file gets. Upper-casing is a function parameter and the clock
  reading is a `nat` parameter.

## Model

| member | source | states |
|---|---|---|
| `CustomScrollbar.ThumbHeight` | components/ui/CustomScrollbar.tsx:84 | 0 when the content height is 0 (so nothing divides by zero); otherwise thumb/container = container/content; it lies in [0, clientHeight] whenever 0 <= clientHeight <= scrollHeight, and is strictly below clientHeight when the content overflows a non-empty container |
| `CustomScrollbar.ShowScrollbar` | components/ui/CustomScrollbar.tsx:88 | the scrollbar is shown exactly when there is something to scroll (scrollHeight − clientHeight > 0); with `ThumbTop`, `TrackClickWithinRange` and `ThumbTopWithinTrack` it is the guard under which the geometry is meaningful |
| `CustomScrollbar.RenderedThumbHeight` | components/ui/CustomScrollbar.tsx:116 | the drawn height is at least 20 px and at least the proportional height, and is one of the two |
| `CustomScrollbar.ThumbTop` | components/ui/CustomScrollbar.tsx:85-88 | without overflow (the scrollbar is not shown) the thumb sits at 0 |
| `CustomScrollbar.MaxThumbTop` | components/ui/CustomScrollbar.tsx:66-67 | computed with line 66's unguarded quotient, so it requires scrollHeight > 0; there it equals clientHeight minus line 84's guarded thumb height; the room the thumb can travel lies in [0, clientHeight] when the content is at least as tall as the container, and is positive when it overflows a non-empty container; `NoThumbRoomInEmptyContainer` shows it is 0 for an empty container |
| `CustomScrollbar.DragRatio` | components/ui/CustomScrollbar.tsx:71 | for positive content height and non-zero room, the ratio converts thumb travel into scroll travel: ratio × maxThumbTop = scrollHeight − clientHeight; `DragRatioSimplifies` shows it equals scrollHeight / clientHeight |
| `CustomScrollbar.TrackClickTarget` | components/ui/CustomScrollbar.tsx:50-54 | the target offset is linear in the click position: target × trackHeight = clickY × (scrollHeight − clientHeight); a zero track height is excluded |
| `CustomScrollbar.ThumbTopWithinTrack` | components/ui/CustomScrollbar.tsx:85-87 | with overflow and 0 <= scrollTop <= scrollHeight − clientHeight, the thumb top lies in [0, clientHeight − thumbHeight] |
| `CustomScrollbar.ThumbTopMonotone` | components/ui/CustomScrollbar.tsx:85-87 | with overflow, the thumb top never decreases as scrollTop grows |
| `CustomScrollbar.ThumbTopAtEnds` | components/ui/CustomScrollbar.tsx:85-87 | with overflow and a container height of at least 0, scrollTop 0 puts the thumb at 0 and the largest scrollTop puts it at clientHeight − thumbHeight |
| `CustomScrollbar.RenderedThumbOverflowsAtBottom` | components/ui/CustomScrollbar.tsx:116 | with overflow and a container height of at least 0, when the proportional thumb is under 20 px, the drawn thumb at the bottom runs past the track end by exactly 20 − thumbHeight (allowed overflow: position uses the unclamped height) |
| `CustomScrollbar.TrackClickEnds` | components/ui/CustomScrollbar.tsx:52-54 | a click at the top of the track asks for offset 0, a click at its bottom for the largest offset |
| `CustomScrollbar.TrackClickWithinRange` | components/ui/CustomScrollbar.tsx:52-54 | with overflow, every click inside the track asks for an offset inside [0, scrollHeight − clientHeight] |
| `CustomScrollbar.DragRatioSimplifies` | components/ui/CustomScrollbar.tsx:66-71 | when scrollHeight > clientHeight > 0, the thumb leaves positive room (maxThumbTop > 0) and the drag ratio equals scrollHeight / clientHeight |
| `CustomScrollbar.NoThumbRoomInEmptyContainer` | components/ui/CustomScrollbar.tsx:66-67 | with clientHeight 0 and positive content height, maxThumbTop is 0: the ratio at line 71 would divide by zero |
| `CustomScrollbar.ExampleGeometry` | components/ui/CustomScrollbar.tsx:66-71 | 1000 px of content in 400 px: thumb 160, maxThumbTop 240, ratio 2.5, a click half-way down asks for 300, and offset 300 draws the thumb at 120 |
| `CustomScrollbar.DragReturnsToStart` | components/ui/CustomScrollbar.tsx:69-72 | moving the pointer back to the mousedown position restores the start offset (the displacement is total, not incremental) |
| `CustomScrollbar.DragSession.Target` | components/ui/CustomScrollbar.tsx:69-72 | the offset a move to y assigns is the start offset plus the pointer's total displacement y − startY times scrollHeight / clientHeight; `DragReturnsToStart`, `DragMoveScalesByRatio` and `ThumbFollowsPointer` draw the consequences |
| `CustomScrollbar.DragMoveScalesByRatio` | components/ui/CustomScrollbar.tsx:69-72 | between any two pointer positions the target moves by their distance × scrollHeight / clientHeight |
| `CustomScrollbar.ThumbFollowsPointer` | components/ui/CustomScrollbar.tsx:64-72 | at the heights captured when the drag started, the thumb drawn at the assigned offset is exactly y − startY below where it started |
| `CustomScrollbar.Viewport.constructor` | components/ui/CustomScrollbar.tsx:18-20 | all three state values start at 0, no drag is registered and no scrollbar is shown |
| `CustomScrollbar.Viewport.UpdateScroll` | components/ui/CustomScrollbar.tsx:27-31 | the state takes the container's reading; registered drags are untouched |
| `CustomScrollbar.Viewport.TrackClick` | components/ui/CustomScrollbar.tsx:46-57 | the container offset becomes the click target for the current state; nothing else changes |
| `CustomScrollbar.Viewport.MouseDown` | components/ui/CustomScrollbar.tsx:59-81 | a new session is registered, capturing the pointer, the container offset and the current heights; the viewport is dragging |
| `CustomScrollbar.Viewport.MouseMove` | components/ui/CustomScrollbar.tsx:69-73 | while idle the container offset is unchanged; while dragging it becomes the last-registered session's target for this pointer position |
| `CustomScrollbar.Viewport.MouseUp` | components/ui/CustomScrollbar.tsx:75-78 | every session unregisters its listeners: the viewport is idle, so later moves change nothing |
| `CustomScrollbar.ExampleSession` | components/ui/CustomScrollbar.tsx:46-81 | driving the component through the 1000/400 example: click half-way gives 300, a drag of 80 px gives 500, and a move after mouseup leaves 500 |
| `TagsInput.LeadingEnd` | components/ui/TagsInput.tsx:21 | everything from the starting position up to the result is whitespace, and the character at the result (if any) is not |
| `TagsInput.TrailingStart` | components/ui/TagsInput.tsx:21 | everything from the result up to the end position is whitespace, and the character just before the result (if after the lower bound) is not |
| `TagsInput.Trim` | components/ui/TagsInput.tsx:21 | the result is the contiguous part of the input that starts where its leading whitespace ends, with only whitespace cut off before and after it; neither end of the result is whitespace; the result is empty exactly when the input is all whitespace |
| `TagsInput.TrimFixesExactlyTrimmed` | components/ui/TagsInput.tsx:21-24 | trimming leaves a string unchanged if and only if it is empty or neither of its ends is whitespace |
| `TagsInput.TrimIdempotent` | components/ui/TagsInput.tsx:21-24 | trimming a trimmed string changes nothing |
| `TagsInput.HandleKeyDown` | components/ui/TagsInput.tsx:20-30 | onChange is called only with list + [trim(input)] (Enter, non-blank, not yet listed) or with the list minus its last tag (Backspace, empty input, non-empty list); the input text is kept except that Enter on a non-blank entry empties it; the lemmas below pin down each case both ways |
| `TagsInput.RemoveTag` | components/ui/TagsInput.tsx:32-34 | the positional filter removes exactly the element at an in-range index, keeping the rest in order; an out-of-range index leaves the list unchanged |
| `TagsInput.EnterAddsNewTag` | components/ui/TagsInput.tsx:21-26 | Enter with a non-blank entry not yet in the list hands list + [trim(input)] to onChange and empties the input; the list grows by one |
| `TagsInput.EnterIgnoresDuplicate` | components/ui/TagsInput.tsx:23-26 | Enter with an entry already in the list does not call onChange but still empties the input |
| `TagsInput.EnterIgnoresBlankInput` | components/ui/TagsInput.tsx:21 | Enter with an empty or whitespace-only input changes neither the list nor the input |
| `TagsInput.BackspaceDropsLastTag` | components/ui/TagsInput.tsx:27-28 | Backspace with an exactly empty input and a non-empty list drops the last tag; with any text (blanks included) or no tags it does nothing |
| `TagsInput.OtherKeysDoNothing` | components/ui/TagsInput.tsx:20-30 | any key other than Enter and Backspace changes neither the list nor the input |
| `TagsInput.KeyDownKeepsTagsWellFormed` | components/ui/TagsInput.tsx:20-30 | for every key, a list without duplicates keeps none, and a list of trimmed non-empty tags stays so |
| `TagsInput.AppendKeepsTagsWellFormed` | components/ui/TagsInput.tsx:23-24 | appending a new, non-empty, trimmed tag keeps the list free of duplicates and of untrimmed tags |
| `TagsInput.DropLastKeepsTagsWellFormed` | components/ui/TagsInput.tsx:27-28 | dropping the last tag keeps the list free of duplicates and of untrimmed tags |
| `TagsInput.RemoveTagTakesOutOne` | components/ui/TagsInput.tsx:32-34 | for an in-range index the list shrinks by one and loses exactly that tag (as a multiset) |
| `TagsInput.RemoveTagKeepsTagsWellFormed` | components/ui/TagsInput.tsx:32-34 | removal keeps the list free of duplicates and of untrimmed or empty tags |
| `ProposalPage.HandleInputChange` | app/page.tsx:24-29 | the named field takes the new value and every other field keeps its value |
| `ProposalPage.LaterChangeWins` | app/page.tsx:24-29 | of two changes to the same field, only the later one shows |
| `ProposalPage.ChangesToDifferentFieldsCommute` | app/page.tsx:24-29 | changes to different fields can be applied in either order |
| `ProposalPage.UnchangedValueIsNoOp` | app/page.tsx:24-29 | writing back a field's current value leaves the form as it was |
| `ProposalPage.FillSplit` | app/page.tsx:45-80 | a filled template is the template filled up to piece i, then value i, then the template filled from piece i + 1 on |
| `ProposalPage.FillValueInPlace` | app/page.tsx:45-80 | in a filled template, value i stands at its offset, immediately after piece i and immediately before piece i + 1 |
| `ProposalPage.FillFrame` | app/page.tsx:45-80 | a filled template with at least one value starts with its first piece and ends with its last |
| `ProposalPage.ProposalValues` | app/page.tsx:46-69 | there is exactly one value per gap between template pieces, and every value is non-empty (each fallback is); `FieldsDefaultExactlyWhenEmpty` states which value each field yields |
| `ProposalPage.GenerateMockProposal` | app/page.tsx:45-80 | the proposal starts with the template's first piece and ends with its last (the closing section); `ProposalOpensWithClient`, `ProposalValueInPlace` and `ProposalClosesWithInvestment` state what stands where |
| `ProposalPage.ProposalValueInPlace` | app/page.tsx:45-80 | each of the eight interpolated values occurs in the proposal at its offset, between the two fixed pieces of the template around it |
| `ProposalPage.FieldsDefaultExactlyWhenEmpty` | app/page.tsx:46-65 | each field is replaced by its default exactly when it is empty, blank values are inserted verbatim, and an empty title gives "Untitled Project" in one place but "your project" in another |
| `ProposalPage.ProposalOpensWithClient` | app/page.tsx:46-48 | the proposal begins "PROPOSAL FOR " + the upper-cased client name (or "CLIENT" when empty) + the "Project Title: " label |
| `ProposalPage.ProposalClosesWithInvestment` | app/page.tsx:67-80 | the proposal ends with the INVESTMENT heading, "Total Investment: " + budget or the fallback sentence, the three NEXT STEPS lines and the "Best regards,\nYour Team" sign-off |
| `ProposalPage.InitialFormProposal` | app/page.tsx:11-18 | the proposal of the initial, all-empty form is the template filled entirely with defaults |
| `ProposalPage.Decimal` | app/page.tsx:93 | the numeral is non-empty, made of decimal digits, and has no leading zero unless the number is 0 |
| `ProposalPage.DecimalRoundTrip` | app/page.tsx:93 | reading the numeral back gives the number written |
| `ProposalPage.DownloadFilename` | app/page.tsx:93 | the name starts with "proposal-" and ends with ".txt", with room for at least one character of client name, the dash and one digit between; `DownloadFilenameShape` fixes every part |
| `ProposalPage.DownloadFilenameShape` | app/page.tsx:93 | the name is "proposal-", then the client name (or "client" when it is empty) at positions 9 onward, then "-", the timestamp's digits and ".txt"; the digits before ".txt" read back as the timestamp |

## Left out

- DOM and React plumbing is not modelled. This covers the `useEffect` subscription to scroll events and `ResizeObserver` and its teardown, rendering and styling, and the hover colours. `UpdateScroll` receives the measurements as a parameter.
- The browser keeps `container.scrollTop` within range. That clamp is not modelled. `TrackClick` and `MouseMove` assign the unclamped value, as the code does at lines 56 and 72. The browser's settled offset comes back through `UpdateScroll`.
- Floating-point arithmetic is not modelled. The geometry is over `real`. The cases where the code would produce NaN or Infinity are excluded by preconditions: a zero content height in `MaxThumbTop` and `DragRatio` (line 66 has no guard), a zero track height in `TrackClickTarget` (line 53), and zero room in `DragRatio` (line 71). Line 84 guards its own quotient, and `ThumbHeight` models that guard.
- CustomScrollbar.MaxThumbTop: requires `scrollHeight > 0`, because line 66 divides by it without a guard. A drag never meets that case: the thumb exists only when `scrollHeight > clientHeight >= 0`.
- CustomScrollbar.Viewport.MouseDown: requires `clientHeight > 0`, which the code does not check. With `clientHeight = 0` the drag ratio divides by zero (`NoThumbRoomInEmptyContainer`), so that case is excluded, not modelled.
- CustomScrollbar.Viewport.TrackClick: requires a positive track height, so the division at line 53 is defined.
- The `if (!container) return` guards (lines 48 and 62) are not modelled. A viewport in this model is always mounted.
- `preventDefault` on the thumb mousedown and on Enter is not modelled. Neither is event bubbling from the thumb to the track's click handler.
- The code's cleanup (lines 40-43) removes only the scroll listener and the resize observer. A drag still registered on unmount keeps its document listeners. The model has no unmount, so this is not captured.
- The model follows the code where it is narrower than one might expect. The 20 px minimum applies only to the drawn thumb height (line 116); the position and the drag still use the proportional height. The offset is assigned unclamped (lines 56 and 72). Only a zero content height is guarded (line 84); the track click and the drag ratio divide without a guard.
- `toUpperCase` is a parameter `upper`. Unicode case mapping is not modelled. The lemmas that need it assume only that it maps the empty string, and only it, to the empty string.
- `Date.now()` is a `nat` parameter. Its string form is the plain decimal numeral, which is how JavaScript writes whole numbers below 10^21.
- The clipboard copy, the Blob/URL/anchor download steps, `alert`, and the two-second `setTimeout` around generation are platform I/O and are not modelled. Only the file name is modelled.
- `HandleInputChange` takes one of the six field names the form's inputs carry (app/page.tsx:119-162). An input with any other name would add a new key to the record, and that case is not modelled.
- The `Math.random` element ids are not modelled. The Select, TextArea and Card wrappers are not modelled either: they only render.
- `Trim` uses the ECMAScript whitespace set as of current Unicode. Tab, LF, VT, FF, CR, the space separators, LS, PS and BOM are enumerated.
