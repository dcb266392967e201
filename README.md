# labs-ember-search: the geosearch widget, modelled in Dafny

`LabsSearchComponent` (addon/components/labs-search.js) is an Ember autocomplete
box for a map. The user types, and after a short pause the widget asks a search
service for matches. It numbers the matches and gives each one a display title.
Arrow keys move a cursor over the list, Enter commits the result under the
cursor, and Escape clears the box. This project models the three pieces of that
file that are plain logic:

- the request URL (`endpoint`) and the configuration it is built from:
  module `Endpoint` in `endpoint.dfy`;
- the body of the debounced search task: the three-character guard and the
  annotation of the parsed reply (`id` and `typeTitle`): module `SearchTask` in
  `search_task.dfy`;
- the keyboard and selection state machine over the fields `selected`,
  `searchTerms`, `_focused` and `currResults`, plus the search task value
  `results.value`:
  - module `Widget` in `widget.dfy` holds the state as a value, one step function
    per handler, and lemmas about single steps and event sequences;
  - module `Component` in `component.dfy` holds the class `LabsSearchComponent`,
    whose methods update those fields in place. Each method is specified by the
    matching step function and also states its effect on the fields directly.

`wrappers.dfy` defines `Option`. `None` is JavaScript's `undefined`: the
environment entry or key that is missing, or the search task value that is not there
yet.

How the model reads the source:

- `results.value` is the value of the search task started for the current text. The
  `results` getter depends on `searchTerms`, so a change of text starts a new
  task, and that task has no value until it finishes. The model therefore sets
  `results` to `None` whenever the text changes (`Widget.SetSearchTerms`). Ember
  only signals a change when the new value differs, so setting the same text
  keeps the old value.
- The invariant `Widget.Valid` has two parts. The cursor is never negative. Text
  shorter than three characters never has results.
- Escape clears the text and drops the focus. It does not empty `currResults`;
  only `goTo` does that. It does leave `results` absent, because the text
  changed. The code was followed here.
- The cursor is not reset when new results arrive. So the cursor can sit past the
  end of a shorter list. `Widget.StaleCursorReachable` gives such a sequence:
  two results, Down, one more keystroke, one result. Enter then passes
  `objectAt(selected)`, which is `undefined`, to `goTo`. `goTo` fails when it
  reads that value's `label`. The model returns `StaleCursor` for this case and
  leaves the fields as they were.
- The query and the helper names go into the URL without URL-encoding, as the
  code does. `Endpoint.AmpersandHelperNotDecoded` shows a consequence: a helper name
  that contains `&` does not read back as one name.
- `label` and `type` are Dafny keywords, so the model names those fields
  `labelText` and `resultType`.

## Model

| member | source | states |
|---|---|---|
| `Endpoint.ResolveConfig` | addon/components/labs-search.js:18-29 | each of host, route and helpers comes from the environment entry when that key is there, else from its default (`https://search-api.planninglabs.nyc`, `search`, the three default helpers) |
| `Endpoint.MissingEntryUsesDefaults` | addon/components/labs-search.js:20-24 | a missing `labs-search` entry behaves like an empty one (the fallback to `{}`) and yields exactly the defaults |
| `Endpoint.HelperParams` | addon/components/labs-search.js:65 | the helper section is empty exactly when there are no helpers; otherwise it starts with `helpers[]=` and ends with the `&` that `q=` follows |
| `Endpoint.HelperParamsAppend` | addon/components/labs-search.js:65 | the section of a concatenated helper list is the concatenation of the sections, so helper order is kept |
| `Endpoint.ParseHelpers` | addon/components/labs-search.js:65 | decoder partner: any section it accepts re-encodes to exactly that text, and no decoded name contains `&` |
| `Endpoint.HelperParamsRoundTrip` | addon/components/labs-search.js:65 | when no helper name contains `&`, decoding the helper section returns exactly the configured list, in order |
| `Endpoint.AmpersandHelperNotDecoded` | addon/components/labs-search.js:65 | helper names are not escaped: the section for the name `a&b` does not decode at all |
| `Endpoint.Endpoint` | addon/components/labs-search.js:60-68 | the URL is `host/route?`, then the helper section, then `q=`, then the search terms verbatim as its last characters; its length is the sum of those parts |
| `Endpoint.EndpointDecodes` | addon/components/labs-search.js:60-68 | cut at the known lengths of the base and of the query, the helper section decodes to the configured helpers in order, and the tail is the unencoded query (the URL alone cannot be split, since the query is not encoded) |
| `SearchTask.TypeTitle` | addon/components/labs-search.js:108 | the title is the lookup entry for the type when present and non-empty, otherwise `Result`; it is never empty |
| `SearchTask.Annotate` | addon/components/labs-search.js:105-110 | same length as the reply; element `i` gets `id == i` and the title of its type, and keeps its type, label and every other server field |
| `SearchTask.StripAnnotate` | addon/components/labs-search.js:105-110 | round trip: forgetting the annotation gives back the server's reply unchanged |
| `SearchTask.AnnotateIdempotent` | addon/components/labs-search.js:105-110 | annotating the records behind an annotated list gives that same list again |
| `SearchTask.LotExample` | addon/components/labs-search.js:76-79 | with the default lookup, a single `lot` result gets id 0 and the title `Lot` |
| `SearchTask.Perform` | addon/components/labs-search.js:93-116 | the search task is cancelled exactly when the terms are shorter than 3 characters; otherwise it fetches `Endpoint(config, terms)` and yields exactly `Annotate(reply, lookup)`: the reply numbered from 0, each result titled from the lookup |
| `Widget.ResultsCount` | addon/components/labs-search.js:53-58 | 0 while results are absent, otherwise their length |
| `Widget.StepPreservesValid` | addon/components/labs-search.js:95 | every handler and every task completion keeps the cursor non-negative and short text free of results |
| `Widget.RunPreservesValid` | addon/components/labs-search.js:132-201 | any sequence of events keeps that invariant |
| `Widget.ReachableValid` | addon/components/labs-search.js:84-91 | every widget starts valid and stays valid whatever happens to it |
| `Widget.ArrowMovesCursor` | addon/components/labs-search.js:137-155 | Up decrements the cursor by exactly 1 when results are present and it is above 0; Down increments it by exactly 1 when it is below `resultsCount - 1`; otherwise the cursor stays, and with results absent neither key changes anything |
| `Widget.KeyUpTouchesOnlyCursor` | addon/components/labs-search.js:140-163 | keys other than Escape change at most the cursor; keys other than 38, 40 and 27 change nothing |
| `Widget.ArrowKeepsCursorInRange` | addon/components/labs-search.js:140-156 | if `0 <= selected <= max(0, resultsCount - 1)` holds before Up or Down, it holds after |
| `Widget.ArrowsUndoEachOther` | addon/components/labs-search.js:137-155 | inside the list, Down then Up, and Up then Down, return to the starting state |
| `Widget.EscapeClears` | addon/components/labs-search.js:157-161 | from any valid state, Escape leaves empty text, no focus, results absent and exactly one more `onClear`; the cursor and `currResults` are untouched |
| `Widget.EnterCommitsSelected` | addon/components/labs-search.js:118-130 | Enter commits `results[selected]` through `goTo` when the cursor is on a non-empty list; with results absent or empty, or with any other key, nothing changes |
| `Widget.GoToResets` | addon/components/labs-search.js:171-186 | after `goTo(r)`: cursor 0, text = r's label, unfocused, `currResults` empty, `onSelect(r)` fired, and the cursor is in range |
| `Widget.CompletePublishes` | addon/components/labs-search.js:95-112 | a finished task publishes the annotated reply as both `results` and `currResults` exactly when the text has at least 3 characters; the cursor is not reset; shorter text leaves the state unchanged |
| `Widget.ArrowsKeepCursorInRange` | addon/components/labs-search.js:140-156 | any sequence of Up/Down keys keeps the cursor in range and changes nothing else |
| `Widget.DownRepeated` | addon/components/labs-search.js:150-155 | with results present, `n` Down presses move a cursor below the last result to `min(selected + n, count - 1)`; a cursor at or past the last result stays where it is |
| `Widget.UpRepeated` | addon/components/labs-search.js:143-148 | with results present, `n` Up presses move the cursor to `max(selected - n, 0)` |
| `Widget.StaleCursorReachable` | addon/components/labs-search.js:118-130 | because new results do not reset the cursor, a reachable state has the cursor past the list; there Enter reaches `goTo` without a result and changes nothing |
| `Component.LabsSearchComponent.constructor` | addon/components/labs-search.js:18-29 | configuration resolved from the environment entry; cursor 0, unfocused, no results, given text |
| `Component.LabsSearchComponent.SetSearchTerms` | addon/components/labs-search.js:47-51 | the text becomes `t`; a changed text drops the old task value |
| `Component.LabsSearchComponent.FinishSearch` | addon/components/labs-search.js:93-116 | returns the URL fetched, or none when the text is under 3 characters (then nothing changes); otherwise `results` and `currResults` become the annotated reply |
| `Component.LabsSearchComponent.KeyUp` | addon/components/labs-search.js:132-163 | the Up/Down cursor moves with their floor and ceiling; Escape empties the text, unfocuses, drops results and fires `onClear`; other keys leave text, focus, lists and callbacks alone |
| `Component.LabsSearchComponent.KeyPress` | addon/components/labs-search.js:118-130 | Enter on a non-empty list commits the result under the cursor; the outcome says whether it committed, did nothing, or hit a stale cursor; without a commit nothing changes |
| `Component.LabsSearchComponent.Clear` | addon/components/labs-search.js:165-169 | empty text, results absent, one `onClear` |
| `Component.LabsSearchComponent.GoTo` | addon/components/labs-search.js:171-186 | cursor 0, text = label, unfocused, `currResults` empty, `onSelect(r)` fired |
| `Component.LabsSearchComponent.HandleFocusIn` | addon/components/labs-search.js:188-191 | focused, nothing else changes |
| `Component.LabsSearchComponent.HandleFocusOut` | addon/components/labs-search.js:198-201 | unfocused, nothing else changes |
| `Component.LabsSearchComponent.HandleHoverResult` | addon/components/labs-search.js:193-196 | `onHoverResult(r)` fired, nothing else changes |
| `Component.LabsSearchComponent.HandleHoverOut` | addon/components/labs-search.js:203-206 | `onHoverOut` fired, nothing else changes |

## Left out

- The network round trip (`fetch`, `raw.json()`): the parsed JSON array is an input to `FinishSearch` and `Perform`. Network and parse failures, which the code does not handle, are not modelled.
- The `loading` promise that resolves after 500 ms: it is a timer and never changes what the model covers.
- The 100 ms debounce and the keep-latest policy of `@keepLatestTask`: they are timing and concurrency inside ember-concurrency. A task that finishes is modelled as finishing for the current text. A superseded task that still sets `currResults` when it finishes is not modelled.
- The guard `this.cancel()` on short text: the model ends the search task before the timer, with no fetch and no value. The exact ember-concurrency mechanics behind that call are not modelled.
- The DOM blur that `goTo` dispatches: only its own `_focused = false` is kept. In the stale-cursor case the blur has already been dispatched before the failure. Whatever the template does with that blur is not part of this model.
- The template (templates/components/labs-search) is not part of this model. Its two-way binding of the input is modelled as `SetSearchTerms`.
- `getOwner(...).resolveRegistration` is modelled as an optional `EnvConfig` value passed to the constructor. The `@argument` defaults for host and route are overwritten by the constructor, so they are not modelled separately.
- Ember `@computed` caching and the `@argument`/`@type` decorators. The host callbacks are opaque, so the model keeps only a ghost log of which callback fired with what.
- `SearchTask.TypeTitle`: looks up `typeTitleLookup.<type>` as one key. It does not model Ember's dotted-path lookup for a type that contains `.`, or non-string lookup values. Nor does it model result types that name keys every JavaScript object inherits (`constructor`, `toString`, `__proto__`): there the source's lookup finds a truthy inherited value and keeps it as `typeTitle`, while the model gives `Result`.
- `SearchTask.Perform`: counts the text in Unicode characters. JavaScript's `length` counts UTF-16 code units, so the two differ for text outside the Basic Multilingual Plane.
- Server records carry `type`, `label` and other string fields. Any `id` or `typeTitle` the server sends is overwritten by the annotation, so it is not represented. The in-place mutation of the server objects is modelled as building new records.
