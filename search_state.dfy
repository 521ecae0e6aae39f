/** The search state of the `App` component in src/App.js, as a value,
    and the transitions its handlers apply to it. Each handler's `setState`
    updater reads the previous state and returns the next one whole, so a
    transition is a function from state to state. */
module SearchState {
  import opened Picker

  /** One item of the search service's `data` array: an identifier and the
      looping video it points at. */
  datatype Gif = Gif(id: string, mp4: string)

  /** What the awaited `fetch` and `response.json()` gave `searchGiffy`:
      the response's `data` array, or the reason the request failed. */
  datatype Response = Success(data: seq<Gif>) | Failure(reason: string)

  /** How the `try` block of `searchGiffy` ends: with the gif it picked, or
      with the message the `catch` block puts in the hint. */
  datatype Outcome = Found(gif: Gif) | Missed(message: string)

  /** The component state: `searchTerm`, `loading`, `hintText`, `gifs`. */
  datatype State = State(searchTerm: string, loading: bool, hintText: string, gifs: seq<Gif>)

  /** What reaches the component: the input changes, a key is pressed in
      the input, a search dispatched earlier resolves (`r` is the
      `Math.random()` value drawn on success), or the clear button is
      clicked. */
  datatype Event =
    | Change(value: string)
    | KeyPress(value: string, key: string)
    | Resolve(term: string, response: Response, r: real)
    | Clear

  const EnterKey := "Enter"
  const SearchPrompt := "Hit enter to search "
  const MorePrompt := "Hit enter to see more "
  const NothingFound := "Nothing found for "
  /** The hint for a term too short to search: one space, never "". */
  const Blank := " "

  /** The state the constructor sets up. */
  const Initial := State("", false, "", [])

  /** A term long enough to search for: more than 2 characters. */
  predicate Searchable(value: string) {
    |value| > 2
  }

  /** The hint `handleChange` sets for the input `value`. */
  function ChangeHint(value: string): (h: string)
    ensures h != ""
    ensures h == Blank <==> !Searchable(value)
    ensures Searchable(value) ==> |SearchPrompt| <= |h| && h[|SearchPrompt|..] == value
  {
    if Searchable(value) then SearchPrompt + value else Blank
  }

  /** Whether a key press in the input starts a search. Enter starts one
      exactly when the hint shown for that input invites it. */
  function Submits(value: string, key: string): (b: bool)
    ensures b <==> key == EnterKey && ChangeHint(value) == SearchPrompt + value
  {
    Searchable(value) && key == EnterKey
  }

  /** The `try` block of `searchGiffy` for the dispatched `term`: a failed
      request keeps its reason, an empty `data` array becomes the failure
      "Nothing found for <term>", and otherwise one item is drawn. */
  function FetchOutcome(term: string, response: Response, r: real): (o: Outcome)
    requires IsDraw(r)
    ensures o.Found? <==> response.Success? && response.data != []
    ensures o.Found? ==> o.gif in response.data
    ensures response.Failure? ==> o == Missed(response.reason)
    ensures response == Success([]) ==> o == Missed(NothingFound + term)
  {
    match response
    case Failure(reason) => Missed(reason)
    case Success(data) =>
      if |data| == 0 then Missed(NothingFound + term)
      else Found(RandomChoice(data, r))
  }

  /** The draw carried by a resolution is one `Math.random()` can return. */
  predicate WellFormed(e: Event) {
    e.Resolve? ==> IsDraw(e.r)
  }

  predicate AllWellFormed(evs: seq<Event>) {
    forall i :: 0 <= i < |evs| ==> WellFormed(evs[i])
  }

  /** The state after one event. Only a change and a clear touch the term;
      only a submitting key press turns the spinner on and every resolution
      turns it off; only a clear removes gifs, and a resolution adds at most
      one, taken from its response. */
  function Step(s: State, e: Event): (t: State)
    requires WellFormed(e)
    ensures !e.Change? && !e.Clear? ==> t.searchTerm == s.searchTerm
    ensures e.KeyPress? ==> t.hintText == s.hintText && t.gifs == s.gifs
    ensures t.loading <==> (e.KeyPress? && Submits(e.value, e.key)) || (s.loading && !e.Resolve?)
    ensures !e.Clear? ==> |s.gifs| <= |t.gifs| <= |s.gifs| + 1 && t.gifs[..|s.gifs|] == s.gifs
    ensures |t.gifs| == |s.gifs| + 1 ==> e.Resolve? && e.response.Success? && t.gifs[|s.gifs|] in e.response.data
    ensures e.Clear? ==> t.gifs == []
  {
    match e
    case Change(value) =>
      s.(searchTerm := value, hintText := ChangeHint(value))
    case KeyPress(value, key) =>
      if Submits(value, key) then s.(loading := true) else s
    case Resolve(term, response, r) =>
      (match FetchOutcome(term, response, r)
       case Found(gif) =>
         s.(gifs := s.gifs + [gif], loading := false, hintText := MorePrompt + term)
       case Missed(message) =>
         s.(hintText := message, loading := false))
    case Clear =>
      s.(searchTerm := "", hintText := "", gifs := [])
  }

  /** The state after a run of events, applied in order. */
  function Run(s: State, evs: seq<Event>): State
    requires AllWellFormed(evs)
    decreases |evs|
  {
    if evs == [] then s else Run(Step(s, evs[0]), evs[1..])
  }

  /** Whether the header shows the clear button (`hasResults`): exactly
      when clicking it would take gifs off the screen. */
  function ShowsClearButton(s: State): (b: bool)
    ensures b <==> Step(s, Clear).gifs != s.gifs
  {
    |s.gifs| > 0
  }

  /** A resolution that adds a gif. */
  predicate Adds(e: Event) {
    e.Resolve? && e.response.Success? && e.response.data != []
  }

  /** The number of resolutions in `evs` that add a gif. */
  function Additions(evs: seq<Event>): nat
  {
    if evs == [] then 0 else (if Adds(evs[0]) then 1 else 0) + Additions(evs[1..])
  }

  /** `g` is among the items some resolution in `evs` returned. */
  predicate Returned(g: Gif, evs: seq<Event>) {
    exists i :: 0 <= i < |evs| && evs[i].Resolve? && evs[i].response.Success? && g in evs[i].response.data
  }

  // ---------------------------------------------------------------------
  // One transition at a time

  /** Typing sets the term, and the hint invites Enter exactly when Enter
      would start a search; `loading` and `gifs` are left alone. */
  lemma ChangeSetsTermAndHint(s: State, value: string)
    ensures Step(s, Change(value)).searchTerm == value
    ensures Step(s, Change(value)).hintText != ""
    ensures Step(s, Change(value)).hintText == SearchPrompt + value <==> Submits(value, EnterKey)
    ensures Step(s, Change(value)).hintText == Blank <==> !Submits(value, EnterKey)
    ensures Step(s, Change(value)).loading == s.loading
    ensures Step(s, Change(value)).gifs == s.gifs
  {
  }

  /** A key press that does not submit changes nothing; one that does
      sets `loading` and nothing else, whether or not a search is already
      under way. */
  lemma KeyPressStartsOnlyOnEnter(s: State, value: string, key: string)
    ensures !Submits(value, key) ==> Step(s, KeyPress(value, key)) == s
    ensures Submits(value, key) ==> Step(s, KeyPress(value, key)) == s.(loading := true)
    ensures Step(s, KeyPress(value, key)).loading <==> s.loading || Submits(value, key)
  {
  }

  /** A successful search appends exactly one item of `data` to `gifs`,
      turns the spinner off and invites the user to search again. */
  lemma ResolveSuccessAppendsOne(s: State, term: string, data: seq<Gif>, r: real)
    requires IsDraw(r)
    requires data != []
    ensures var t := Step(s, Resolve(term, Success(data), r));
      && |t.gifs| == |s.gifs| + 1
      && t.gifs[..|s.gifs|] == s.gifs
      && t.gifs[|s.gifs|] in data
      && t.gifs[|s.gifs|] == RandomChoice(data, r)
      && !t.loading
      && t.hintText == MorePrompt + term
      && t.searchTerm == s.searchTerm
      && ShowsClearButton(t)
  {
  }

  /** Any item of a response can reach the grid: the draw k/|data|
      appends `data[k]`. */
  lemma AnyItemCanBeShown(s: State, term: string, data: seq<Gif>, k: nat)
    requires k < |data|
    ensures IsDraw(k as real / |data| as real)
    ensures Step(s, Resolve(term, Success(data), k as real / |data| as real)).gifs == s.gifs + [data[k]]
  {
    RandomChoiceReaches(data, k);
  }

  /** A failed search shows its reason and keeps the term and the gifs. */
  lemma ResolveFailureKeepsGifs(s: State, term: string, reason: string, r: real)
    requires IsDraw(r)
    ensures Step(s, Resolve(term, Failure(reason), r)) == s.(hintText := reason, loading := false)
  {
  }

  /** An empty result list is the failure "Nothing found for <term>". */
  lemma EmptyResultIsNothingFound(s: State, term: string, r: real, r': real)
    requires IsDraw(r) && IsDraw(r')
    ensures Step(s, Resolve(term, Success([]), r)) == Step(s, Resolve(term, Failure(NothingFound + term), r'))
    ensures Step(s, Resolve(term, Success([]), r)).gifs == s.gifs
  {
  }

  /** A resolution writes the term it was dispatched with, not the one in
      the input now: the state's current term plays no part. */
  lemma ResolveIgnoresCurrentTerm(s: State, typed: string, term: string, response: Response, r: real)
    requires IsDraw(r)
    ensures Step(s.(searchTerm := typed), Resolve(term, response, r)).hintText
         == Step(s, Resolve(term, response, r)).hintText
    ensures Step(s.(searchTerm := typed), Resolve(term, response, r)).gifs
         == Step(s, Resolve(term, response, r)).gifs
  {
  }

  /** Clearing empties the term, the hint (to "", not a space) and the
      gifs, hides the clear button, and leaves `loading` as it was. */
  lemma ClearResets(s: State)
    ensures Step(s, Clear) == State("", s.loading, "", [])
    ensures !ShowsClearButton(Step(s, Clear))
    ensures Step(s, Clear).hintText != Blank
  {
  }

  // ---------------------------------------------------------------------
  // Runs of events

  lemma {:induction false} AllWellFormedTail(evs: seq<Event>)
    requires evs != [] && AllWellFormed(evs)
    ensures WellFormed(evs[0]) && AllWellFormed(evs[1..])
  {
    forall i | 0 <= i < |evs| - 1 ensures WellFormed(evs[1..][i]) {
      assert evs[1..][i] == evs[i + 1];
    }
  }

  /** Between two clears `gifs` only grows: the old list stays a prefix,
      and each resolution that found something adds exactly one item. */
  lemma {:induction false} RunWithoutClearExtendsGifs(s: State, evs: seq<Event>)
    requires AllWellFormed(evs)
    requires forall i :: 0 <= i < |evs| ==> !evs[i].Clear?
    ensures |Run(s, evs).gifs| == |s.gifs| + Additions(evs)
    ensures Run(s, evs).gifs[..|s.gifs|] == s.gifs
    decreases |evs|
  {
    if evs != [] {
      AllWellFormedTail(evs);
      var t := Step(s, evs[0]);
      assert |t.gifs| == |s.gifs| + (if Adds(evs[0]) then 1 else 0) && t.gifs[..|s.gifs|] == s.gifs by {
        if evs[0].Resolve? {
          var e := evs[0];
          if Adds(e) {
            ResolveSuccessAppendsOne(s, e.term, e.response.data, e.r);
          }
        }
      }
      forall i | 0 <= i < |evs| - 1 ensures !evs[1..][i].Clear? {
        assert evs[1..][i] == evs[i + 1];
      }
      RunWithoutClearExtendsGifs(t, evs[1..]);
      var u := Run(t, evs[1..]);
      assert u.gifs[..|s.gifs|] == u.gifs[..|t.gifs|][..|s.gifs|];
    }
  }

  /** Every gif on screen was already there or was returned by one of the
      searches that resolved since. */
  lemma {:induction false} RunGifsComeFromResponses(s: State, evs: seq<Event>)
    requires AllWellFormed(evs)
    ensures forall g :: g in Run(s, evs).gifs ==> g in s.gifs || Returned(g, evs)
    decreases |evs|
  {
    if evs != [] {
      AllWellFormedTail(evs);
      var t := Step(s, evs[0]);
      RunGifsComeFromResponses(t, evs[1..]);
      forall g | g in Run(s, evs).gifs ensures g in s.gifs || Returned(g, evs) {
        if g in t.gifs {
          if g !in s.gifs {
            assert evs[0].Resolve? && evs[0].response.Success? && g in evs[0].response.data;
          }
        } else {
          var i :| 0 <= i < |evs[1..]| && evs[1..][i].Resolve? && evs[1..][i].response.Success?
                   && g in evs[1..][i].response.data;
          assert evs[i + 1] == evs[1..][i];
        }
      }
    }
  }

  /** Running one more event is taking one more step from where the run
      ended. */
  lemma {:induction false} RunThenStep(s: State, evs: seq<Event>, e: Event)
    requires AllWellFormed(evs) && WellFormed(e)
    ensures AllWellFormed(evs + [e])
    ensures Run(s, evs + [e]) == Step(Run(s, evs), e)
    decreases |evs|
  {
    assert forall i :: 0 <= i < |evs + [e]| ==> (evs + [e])[i] == if i < |evs| then evs[i] else e;
    if evs == [] {
      assert [e][1..] == [];
    } else {
      AllWellFormedTail(evs);
      assert (evs + [e])[1..] == evs[1..] + [e];
      RunThenStep(Step(s, evs[0]), evs[1..], e);
    }
  }

  /** Whatever happened before, the answer that arrives last turns the
      spinner off, and a last answer that found something leaves the clear
      button showing. */
  lemma LastAnswerStopsSpinner(s: State, evs: seq<Event>, term: string, response: Response, r: real)
    requires AllWellFormed(evs) && IsDraw(r)
    ensures AllWellFormed(evs + [Resolve(term, response, r)])
    ensures !Run(s, evs + [Resolve(term, response, r)]).loading
    ensures response.Success? && response.data != [] ==>
              ShowsClearButton(Run(s, evs + [Resolve(term, response, r)]))
  {
    RunThenStep(s, evs, Resolve(term, response, r));
  }

  /** Enter on a two-character term dispatches nothing and changes nothing. */
  lemma ShortTermNeverSubmits(s: State)
    ensures !Submits("zz", EnterKey)
    ensures Step(s, KeyPress("zz", EnterKey)) == s
  {
  }
}
