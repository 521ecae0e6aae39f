/** The `App` component of src/App.js as an object: its four state fields
    and the handlers that update them. `HandleChange`, `HandleKeyPress`,
    `FinishSearch` and `ClearSearch` are proved to leave the fields in the
    state `SearchState.Step` gives for the matching event. `BeginSearch`, the
    first half of `searchGiffy`, has no event of its own: it sets `loading`
    and keeps the rest, and `SearchGiffy` is `Step` on the resolution from
    the state with `loading` set. */
module GiffyApp {
  import opened Picker
  import opened SearchState

  class App {
    var searchTerm: string
    var loading: bool
    var hintText: string
    /** The gifs shown, oldest first. */
    var gifs: seq<Gif>

    /** The fields as a `SearchState.State` value. */
    function Snapshot(): State
      reads this
    {
      State(searchTerm, loading, hintText, gifs)
    }

    /** An empty term, no spinner, an empty hint and no gifs. */
    constructor ()
      ensures searchTerm == "" && !loading && hintText == "" && gifs == []
      ensures Snapshot() == Initial
    {
      searchTerm := "";
      loading := false;
      hintText := "";
      gifs := [];
    }

    /** `handleChange`: the input now holds `value`. */
    method HandleChange(value: string)
      modifies this
      ensures searchTerm == value
      ensures hintText == (if |value| > 2 then SearchPrompt + value else Blank)
      ensures loading == old(loading) && gifs == old(gifs)
      ensures Snapshot() == Step(old(Snapshot()), Change(value))
    {
      searchTerm := value;
      hintText := ChangeHint(value);
    }

    /** `handleKeyPress`: `key` was pressed while the input held `value`.
        Returns whether `searchGiffy(value)` was called; its synchronous
        part runs at once, its resolution later (`FinishSearch`). Nothing
        here looks at `loading`. */
    method HandleKeyPress(value: string, key: string) returns (dispatched: bool)
      modifies this
      ensures dispatched <==> |value| > 2 && key == EnterKey
      ensures dispatched ==> loading
      ensures searchTerm == old(searchTerm) && hintText == old(hintText) && gifs == old(gifs)
      ensures !dispatched ==> loading == old(loading)
      ensures Snapshot() == Step(old(Snapshot()), KeyPress(value, key))
    {
      dispatched := Submits(value, key);
      if dispatched {
        BeginSearch();
      }
    }

    /** The first `setState` of `searchGiffy`, before the request is sent:
        the spinner goes on. */
    method BeginSearch()
      modifies this
      ensures loading
      ensures searchTerm == old(searchTerm) && hintText == old(hintText) && gifs == old(gifs)
    {
      loading := true;
    }

    /** The rest of `searchGiffy(term)`, once the request has answered with
        `response`; `r` is the `Math.random()` draw. */
    method FinishSearch(term: string, response: Response, r: real)
      requires IsDraw(r)
      modifies this
      ensures !loading && searchTerm == old(searchTerm)
      ensures response.Success? && response.data != [] ==>
                && |gifs| == |old(gifs)| + 1
                && gifs[..|old(gifs)|] == old(gifs)
                && gifs[|old(gifs)|] in response.data
                && gifs[|old(gifs)|] == RandomChoice(response.data, r)
                && hintText == MorePrompt + term
      ensures response.Success? && response.data == [] ==>
                gifs == old(gifs) && hintText == NothingFound + term
      ensures response.Failure? ==> gifs == old(gifs) && hintText == response.reason
      ensures Snapshot() == Step(old(Snapshot()), Resolve(term, response, r))
    {
      match response
      case Failure(reason) =>
        hintText := reason;
        loading := false;
      case Success(data) =>
        if |data| == 0 {
          hintText := NothingFound + term;
          loading := false;
        } else {
          var randomGif := RandomChoice(data, r);
          gifs := gifs + [randomGif];
          loading := false;
          hintText := MorePrompt + term;
        }
    }

    /** `searchGiffy(term)` when nothing else reaches the component while
        the request is out: spinner on, then the resolution. */
    method SearchGiffy(term: string, response: Response, r: real)
      requires IsDraw(r)
      modifies this
      ensures !loading && searchTerm == old(searchTerm)
      ensures Snapshot() == Step(old(Snapshot()).(loading := true), Resolve(term, response, r))
    {
      BeginSearch();
      FinishSearch(term, response, r);
    }

    /** `clearSearch`: back to an empty term, an empty hint (not a space)
        and no gifs; the spinner is left as it is. */
    method ClearSearch()
      modifies this
      ensures searchTerm == "" && hintText == "" && gifs == []
      ensures loading == old(loading)
      ensures Snapshot() == Step(old(Snapshot()), Clear)
    {
      searchTerm := "";
      hintText := "";
      gifs := [];
    }
  }

  /** A session on a fresh component: type "ca", type "cat", press Enter,
      and the search returns one item `g`. Returns what each step shows. */
  method Session(g: Gif) returns (shortHint: string, prompt: string, started: bool, spinner: bool, shown: seq<Gif>, hint: string)
    ensures shortHint == Blank && prompt == "Hit enter to search cat"
    ensures started && spinner
    ensures shown == [g] && hint == "Hit enter to see more cat"
  {
    var app := new App();
    app.HandleChange("ca");
    shortHint := app.hintText;
    app.HandleChange("cat");
    prompt := app.hintText;
    started := app.HandleKeyPress(app.searchTerm, EnterKey);
    spinner := app.loading;
    app.FinishSearch("cat", Success([g]), 0.5);
    shown := app.gifs;
    hint := app.hintText;
  }

  /** Two Enters on the same term before the first search answers: both
      dispatch a search, the second while the spinner is already on, and
      the first answer turns the spinner off although the second search
      has not answered. */
  method OverlappingSearches(g: Gif) returns (first: bool, second: bool, spinnerAtSecond: bool, spinnerAfterFirstAnswer: bool)
    ensures first && second
    ensures spinnerAtSecond
    ensures !spinnerAfterFirstAnswer
  {
    var app := new App();
    app.HandleChange("cats");
    first := app.HandleKeyPress("cats", EnterKey);
    spinnerAtSecond := app.loading;
    second := app.HandleKeyPress("cats", EnterKey);
    app.FinishSearch("cats", Success([g]), 0.0);
    spinnerAfterFirstAnswer := app.loading;
  }
}
