# KIKU: a Dafny model of the questionnaire-draft generator

KIKU asks a user for a theme, a background reason and an optional set of
"unheard" audience tags, and returns a questionnaire draft. This project models
the two pieces with decision logic:

- **The generate endpoint** (`POST /api/generate`). It picks a mode
  (`lowered_entry` when at least one tag was sent, `default` otherwise) and
  returns `{mode, draft}`. The draft is a fixed markdown template with the theme
  spliced in twice: a heading, an explanation, three questions separated by `---`
  lines, and a closing two-line note. Questions 1 and 2 list four answer options
  each. Question 3 is free text. If the body cannot be read, the endpoint answers
  status 500 with `{error}`. The draft is modelled as its 39 lines joined by line
  feeds, which is what the multi-line template literal produces.
- **The form page** as a state machine over an immutable record: theme,
  background, ticked tags, loading flag and draft. The handlers modelled are
  typing, tag toggling, generate (guard, request, loading, result), copy (its
  guard), reset, and which section is visible. The outcome of `fetch` is an
  input of the generate transition.

Modules: `Wrappers` (Option), `Strings` (JavaScript `trim`, lines of a text),
`Collections` (a JavaScript `Set` as a duplicate-free sequence in insertion
order), `Types` (`types.ts`), `Route` (`app/api/generate/route.ts`) and `Page`
(`app/page.tsx`).

The endpoint's draft is a placeholder: a comment at `app/api/generate/route.ts:8`
marks it as dummy generation, to be replaced once prompts are implemented. The
model describes the placeholder as the code has it:

- There is no typed question structure and no text serializer. The response
  carries the draft as one string.
- The mode is computed and returned, but no wording depends on it.
  `Route.ModeLeavesWordingAlone` proves that the drafts for the two modes are
  identical.
- The endpoint does not reject an empty theme. There is no `InvalidInput` path:
  only the page's guard keeps empty fields from being sent.
- The page does not use the `mode` it gets back.

Two behaviours worth knowing:

- The generate handler checks only the trimmed fields, not `isLoading`. Only the
  button's `disabled` check looks at `isLoading`. `Page.StartGenerate` models the
  handler's own guard.
- A tag that is unticked and then ticked again moves to the end of the request's
  list, because a `Set` keeps insertion order. `Page.BuildRequest` states that the
  request lists the tags in that order, and `Page.RetickedTagSentLast` states
  that such a tag is sent last.

## Model

| member | source | states |
|---|---|---|
| `Types.VocabularyClosed` | types.ts:15-23 | the options list exactly the five tags, once each, and distinct tags have distinct labels |
| `Route.SelectMode` | app/api/generate/route.ts:9-11 | the mode is `lowered_entry` exactly when the tag list is present and non-empty; an absent list and an empty list both give `default`; total |
| `Route.DraftLines` | app/api/generate/route.ts:13-51 | the draft has 39 lines; the theme is spliced into the explanation line and into question 1's text |
| `Route.OnlyTwoLinesCarryTheme` | app/api/generate/route.ts:13-51 | every line except the explanation line and question 1's text is the same for every theme |
| `Route.DraftHeaders` | app/api/generate/route.ts:18-42 | exactly three lines are question headers, and they are ①, ② and ③ in that order |
| `Route.DraftSeparators` | app/api/generate/route.ts:18-48 | `---` lines follow the explanation and each of the three question blocks, and appear nowhere else |
| `Route.DraftOptions` | app/api/generate/route.ts:22-38 | questions 1 and 2 each list their four fixed options in order; no other line is an option line, except question 1's text, which starts with the theme |
| `Route.DraftClosing` | app/api/generate/route.ts:42-51 | question 3 has no option lines and ends with the "no need to write" remark; the two-line note comes after the last separator and ends the draft |
| `Route.DraftLinesWithoutBreaks` | app/api/generate/route.ts:13-51 | with a theme free of line feeds, no line of the draft contains one |
| `Route.DraftTextLines` | app/api/generate/route.ts:13-51 | with such a theme, splitting the draft text `Route.Draft` at line feeds gives back exactly the 39 lines, so the text has the line structure above |
| `Route.ThemeVerbatim` | app/api/generate/route.ts:15-22 | the theme occurs verbatim in the draft text at the two places it is spliced in: in the explanation, and later at the start of question 1 |
| `Route.DraftOrder` | app/api/generate/route.ts:13-51 | in the draft text, the explanation line, headers ①②③, the last separator and both lines of the note occur verbatim, each at a later position than the one before |
| `Route.Post` | app/api/generate/route.ts:4-66 | a readable body gives status 200 with exactly the selected mode and the draft for the body's theme; an unreadable one gives status 500 with the error message and no draft |
| `Route.DraftIgnoresRestOfRequest` | app/api/generate/route.ts:13-56 | two requests with the same theme get the same draft, whatever their background, tags or mode |
| `Route.ModeLeavesWordingAlone` | app/api/generate/route.ts:9-56 | a request with tags gets `lowered_entry` and one with an empty list gets `default`, and both get the same draft |
| `Strings.Trim` | app/page.tsx:26-34 | the result is the input minus a leading and a trailing whitespace run, and neither starts nor ends with whitespace; it is empty exactly when the input is all whitespace |
| `Strings.TrimUnique` | app/page.tsx:26-34 | any split of the input into whitespace, a core that neither starts nor ends with whitespace, and whitespace has `Trim` as its core |
| `Strings.TrimIdempotent` | app/page.tsx:26-34 | trimming a trimmed string changes nothing |
| `Collections.Remove` | app/page.tsx:18 | `Set.delete`: exactly the given element goes, its count drops to zero, and duplicate-freedom is kept; an absent element changes nothing |
| `Collections.RemoveConcat` | app/page.tsx:18 | removal distributes over concatenation, so the elements that stay keep their order |
| `Collections.RemoveAt` | app/page.tsx:18 | in a duplicate-free sequence, deleting an element cuts out exactly its one position and leaves the rest in order |
| `Collections.Add` | app/page.tsx:20 | `Set.add`: an absent element is appended at the end and counted once more; a present one leaves the sequence unchanged; duplicate-freedom is kept |
| `Page.EditTheme` | app/page.tsx:89 | typing sets the theme and nothing else |
| `Page.EditBackground` | app/page.tsx:100 | typing sets the background and nothing else |
| `Page.ToggleContext` | app/page.tsx:15-23 | the tag is added exactly when it was absent and removed when present; every other tag and every other field is unchanged; no tag is held twice |
| `Page.ToggleTwice` | app/page.tsx:15-23 | toggling a tag twice restores the same tags and fields; if the tag was not ticked, it restores the state exactly; if it was ticked, it moves to the end and the other tags keep their order |
| `Page.ContextLabels` | app/page.tsx:35 | the request's list holds the label of each ticked tag, one per tag, in insertion order, with no duplicates; a label is listed exactly when its tag is ticked |
| `Page.BuildRequest` | app/page.tsx:32-36 | the request carries the trimmed theme and background and a present list of the ticked tags' labels in insertion order; the server will pick `lowered_entry` exactly when a tag is ticked |
| `Page.RetickedTagSentLast` | app/page.tsx:15-35 | after a ticked tag is unticked and ticked again, the request lists it last, after the other tags in their order, and the list keeps its length |
| `Page.GenerateEnabledIff` | app/page.tsx:130 | the generate button is enabled exactly when not loading and neither field is all whitespace |
| `Page.StartGenerate` | app/page.tsx:25-36 | when a trimmed field is empty, nothing changes and no request is sent; otherwise loading starts and the built request is sent |
| `Page.Receive` | app/page.tsx:46-51 | a draft is taken exactly from an ok-status generate response, and it is that response's draft |
| `Page.FinishGenerate` | app/page.tsx:46-57 | loading ends whatever the outcome; the draft is replaced on success and kept on failure; nothing else changes |
| `Page.HandleGenerate` | app/page.tsx:25-58 | the whole handler: it sends a request exactly when neither field is all whitespace, ends not loading when sent, sets the draft only on success, and keeps the form input |
| `Page.GenerateEndToEnd` | app/page.tsx:25-58 | against the endpoint, a submittable form ends not loading and showing the draft for its trimmed theme |
| `Page.CopyText` | app/page.tsx:60-67 | text goes to the clipboard exactly when there is a non-empty draft, and it is that draft |
| `Page.Reset` | app/page.tsx:149-154 | the draft is cleared, both fields are emptied and no tag is ticked; afterwards the form is visible and generate is disabled |
| `Page.Apply` | app/page.tsx:15-154 | one user event keeps the tags duplicate-free and nothing loading; copying leaves the state unchanged; the output section (`draft !== null`, line 138) appears when a submittable generate delivers a draft; the form (`draft === null`, line 79) appears after a reset; every other event keeps the section that was shown |
| `Page.RunKeepsInvariant` | app/page.tsx:9-160 | any sequence of user actions keeps the tags duplicate-free and ends not loading; an action whose control is not rendered does nothing, since form controls exist only while the form shows (lines 79-135) and copy and reset only while the output shows (lines 138-160) |
| `Page.ReachableStatesValid` | app/page.tsx:9-13 | every state reached from the initial state has duplicate-free tags and is not loading |

## Left out

- React rendering, JSX markup and CSS: UI only. `app/layout.tsx` is not part of this model; it holds static metadata and the HTML shell.
- `fetch`, `request.json()`, `JSON.stringify` and `NextResponse`: I/O and library calls. The endpoint gets the parsed body as an `Option`, where `None` stands for any exception inside the `try` (route.ts:5-58). Examples are a body that is not JSON, and a body that parses to `null`, which throws at `body.unheard_contexts`. The page gets the outcome of the call as `Delivered(draft)` or `Failed`.
- Bodies with wrongly typed fields are not modelled: the request is typed. In JavaScript, a missing `theme` would be spliced in as the text `undefined`.
- An ok response whose JSON has no `draft` field is not modelled: the page would then store `undefined`. The endpoint never sends one, and `Page.Receive` maps it to a failure.
- `navigator.clipboard.writeText`, `console.error` and `alert` are side effects. Only the guard before the clipboard write is modelled (`Page.CopyText`).
- Asynchronous interleaving of state updates: each handler is one atomic transition. Generate is split into `Page.StartGenerate` and `Page.FinishGenerate` so that the in-flight state is visible.
- `Strings.IsWhitespace` lists ECMAScript's WhiteSpace and LineTerminator code points. No lemma depends on which characters these are, and Unicode category tables are not modelled.
- Route.DraftTextLines: requires a theme without line feeds, because a theme that contains them adds lines of its own, and those lines could look like headers or separators.
- Route.DraftOptions: makes no claim about question 1's text line, which counts as an option line when the theme starts with `- `.
- The typed question structure, the text serializer and mode-dependent wording are not modelled: none of them exist in the code.
