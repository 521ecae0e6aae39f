# Giffy search state machine in Dafny

Giffy is a single-page app. The user types a term and presses Enter. The app asks
an image-search service for matching animated clips and adds one of them, drawn at
random, to a grid. A spinner shows while a search is out. A hint line prompts the
user or reports what went wrong. A clear button empties the grid.

All of the app's logic sits in the `App` component of `src/App.js`. The component
keeps four state fields: `searchTerm`, `loading`, `hintText` and `gifs`. Its
handlers update them: `handleChange`, `handleKeyPress`, `searchGiffy` and
`clearSearch`. A helper, `randomChoice`, draws the random element. This project
models that component:

- `picker.dfy` (module `Picker`) models `randomChoice`. The value
  `Math.random()` returned is a parameter `r` with `0 <= r < 1`. The model proves
  that the index `floor(r * len)` is in range, and that each index is drawn on an
  interval of width `1/len`.
- `search_state.dfy` (module `SearchState`) models the state as a value, `State`.
  Everything that reaches the component is an `Event`: a change of the input, a
  key press, the resolution of a search that was sent earlier, or a click on the
  clear button. `Step` gives the state after one event and `Run` the state after
  a sequence of events. The lemmas cover each transition and whole runs: `gifs`
  only grows between clears, and every gif shown was returned by some search.
- `app.dfy` (module `GiffyApp`) models the component as a class, `App`, with the
  four fields. It has one method per handler. `searchGiffy` writes state twice,
  once before the request and once after it answers, so it is split into
  `BeginSearch` and `FinishSearch`. `HandleChange`, `HandleKeyPress`,
  `FinishSearch` and `ClearSearch` are proved to leave the fields in the state
  `Step` gives for the matching event. Two methods are exceptions. `BeginSearch`
  has no event of its own: it is proved to set `loading` and keep the other
  fields. `SearchGiffy` is proved equal to `Step` on the resolution, applied to
  the state with `loading` already set. `Session` is a client that runs one
  search from the initial state. `OverlappingSearches` is a client that presses
  Enter twice before the first answer.

The network request is an input. `searchGiffy` gets a `Response`: either
`Success(data)` with the response's `data` array, or `Failure(reason)`. As in the
code, an empty `data` array becomes the failure `"Nothing found for <term>"`.

`handleKeyPress` (`src/App.js:138-144`) does not read `loading`. It calls
`searchGiffy` whenever the input holds more than 2 characters and the key is
Enter. So a second Enter while a search is out starts another search, and the
first answer turns the spinner off while the other search has not answered.
`GiffyApp.OverlappingSearches` proves this on the class.

## Model

| member | source | states |
|---|---|---|
| `Picker.RandomIndex` | src/App.js:10 | for a draw `r` in [0, 1) and a non-empty array, the index `floor(r * len)` is below `len` |
| `Picker.RandomChoice` | src/App.js:9-12 | `randomChoice` on a non-empty array returns an element of that array |
| `Picker.RandomIndexUniform` | src/App.js:10 | index `i` is drawn exactly when `i/len <= r < (i+1)/len`, so every index gets an interval of draws of the same width |
| `Picker.RandomChoiceReaches` | src/App.js:9-12 | every element can be drawn: the draw `k/len` is valid and picks `arr[k]` |
| `SearchState.ChangeHint` | src/App.js:131 | the change hint is never `""`; it is the single space exactly when the value has at most 2 characters; otherwise it ends with the value |
| `SearchState.FetchOutcome` | src/App.js:61-73 | a gif is found exactly when the response succeeded with a non-empty `data`, and that gif is an element of `data`; a failure keeps its reason; an empty `data` becomes `"Nothing found for " + term` |
| `SearchState.Submits` | src/App.js:140 | a key press starts a search exactly when the key is Enter and the hint `handleChange` shows for that input is the search prompt |
| `SearchState.Step` | src/App.js:44-157 | per event, which fields may change: only a change or a clear sets the term; a key press keeps the hint and the gifs; `loading` is on after a submitting key press, off after any resolution, and otherwise as before; except on a clear, the old gifs stay a prefix and at most one gif is added, taken from the response of a successful resolution; a clear empties the gifs |
| `SearchState.ShowsClearButton` | src/App.js:171-178 | the header shows the clear button (`hasResults`) exactly when clicking it would take gifs off the screen |
| `SearchState.ChangeSetsTermAndHint` | src/App.js:118-133 | typing sets the term; the hint is `"Hit enter to search " + value` exactly when Enter would start a search, and the single space otherwise; `loading` and `gifs` are unchanged |
| `SearchState.KeyPressStartsOnlyOnEnter` | src/App.js:138-144 | a key press that is not Enter on more than 2 characters leaves the state unchanged; one that is sets `loading` and changes nothing else, whatever `loading` was |
| `SearchState.ResolveSuccessAppendsOne` | src/App.js:73-96 | success with non-empty data grows `gifs` by exactly one element of `data`, the one `randomChoice` draws; the old list is a prefix; `loading` becomes false, the hint becomes `"Hit enter to see more " + term`, the term is unchanged, and the clear button shows |
| `SearchState.AnyItemCanBeShown` | src/App.js:73-89 | any item of a response can reach the grid: the draw `k/len` appends `data[k]` |
| `SearchState.ResolveFailureKeepsGifs` | src/App.js:102-111 | a failure changes only the hint, which becomes the reason, and `loading`, which becomes false |
| `SearchState.EmptyResultIsNothingFound` | src/App.js:68-70 | success with an empty list leaves the same state as the failure `"Nothing found for " + term`, and `gifs` is unchanged |
| `SearchState.ResolveIgnoresCurrentTerm` | src/App.js:80-96 | a resolution writes the term it was sent with; the term currently in the input does not affect the hint or the gifs |
| `SearchState.ClearResets` | src/App.js:151-157 | clearing gives an empty term, the empty hint (not a space) and no gifs, keeps `loading`, and hides the clear button |
| `SearchState.RunWithoutClearExtendsGifs` | src/App.js:89 | over any run without a clear, the old `gifs` stays a prefix, and the list grows by exactly the number of resolutions that found something |
| `SearchState.RunGifsComeFromResponses` | src/App.js:73-89 | after any run, every gif shown was already shown or belongs to the `data` of some successful resolution in the run |
| `SearchState.RunThenStep` | src/App.js:80-82 | `Run` applies `Step` to the events in order: one more event is one more step from where the run ended |
| `SearchState.LastAnswerStopsSpinner` | src/App.js:89-91 | after any run, the answer that arrives last turns `loading` off, and if it found something the clear button shows |
| `SearchState.ShortTermNeverSubmits` | src/App.js:140 | Enter on a two-character term submits nothing and changes nothing |
| `GiffyApp.App.constructor` | src/App.js:27-36 | the initial state: empty term, `loading` false, empty hint, no gifs |
| `GiffyApp.App.HandleChange` | src/App.js:118-133 | sets `searchTerm` and the length-dependent hint; keeps `loading` and `gifs`; matches `Step` on a change event |
| `GiffyApp.App.HandleKeyPress` | src/App.js:138-144 | dispatches exactly when the value has more than 2 characters and the key is Enter, with no check of `loading`; if it dispatches, `loading` is set; nothing else changes; matches `Step` on a key press |
| `GiffyApp.App.BeginSearch` | src/App.js:46-48 | the first update of `searchGiffy` sets `loading` and changes nothing else |
| `GiffyApp.App.FinishSearch` | src/App.js:50-113 | success appends after the old gifs the element of `data` that `randomChoice` draws and sets the "see more" hint; an empty list shows `"Nothing found for " + term`; a failure shows its reason; `loading` ends false; the term is kept; matches `Step` on a resolution |
| `GiffyApp.App.SearchGiffy` | src/App.js:44-114 | a search that nothing interrupts leaves the resolved state with the spinner off |
| `GiffyApp.App.ClearSearch` | src/App.js:151-157 | empties the term, the hint (to `""`) and the gifs; keeps `loading`; matches `Step` on a clear |
| `GiffyApp.OverlappingSearches` | src/App.js:138-144 | from a fresh component with "cats" typed, two Enters both dispatch a search, the second while `loading` is already on, and the first answer leaves `loading` off although the second search has not answered |
| `GiffyApp.Session` | src/App.js:118-144 | from a fresh component: "ca" gives the blank hint, "cat" the search prompt, Enter dispatches and shows the spinner, and a one-item result shows that item with the "see more cat" hint |

## Left out

- The request is not modelled: `fetch`, the request URL with its API key, and JSON parsing (`src/App.js:53-61`). Their result is the `Response` input. The code does not URL-encode the term; that is part of the request and not modelled.
- `Math.random()` is not modelled. The draw `r` is a parameter with `0 <= r < 1`. `r * len` is exact real arithmetic, so rounding of floating-point numbers is not modelled.
- Overlapping searches are not modelled as concurrency. Each resolution is one atomic step. `Run` accepts resolutions in any order, with any term, between any other events. Nothing ties a resolution to the key press that sent it.
- The `catch` path where `error` is an exception object (a network error or a malformed body) is not modelled. The code puts that object itself into `hintText`. Every failure reason is a string here.
- Lengths are counted in Dafny characters, not in the UTF-16 code units of JavaScript's `length`. The two differ only for characters outside the Basic Multilingual Plane.
- React's scheduling of `setState` is not modelled. Each update applies in order to the state the previous one left.
- `console.log`, the input focus in `clearSearch` (`src/App.js:162`) and `render` are left out, as side effects and presentation. Only `hasResults` (`src/App.js:171`) is kept, as `SearchState.ShowsClearButton`.
- `src/Gif.js`, `src/Header.js` and `src/UserHint.js` are presentation only and are not part of this model.
