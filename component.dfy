/**
 * The widget object itself: its UI fields, updated in place by one method per
 * handler. Each method is specified by the step function of module Widget, and
 * states its effect on the fields outright as well.
 */
module Component {
  import opened Wrappers
  import opened SearchTask
  import Endpoint
  import W = Widget

  class LabsSearchComponent {
    /** Host, route and helpers, settled once by the constructor. */
    const config: Endpoint.Config
    /** The type→title table used to annotate results. */
    const typeTitleLookup: map<string, string>

    var selected: int
    var searchTerms: string
    var focused: bool
    var currResults: seq<SearchResult>
    /** The value of the search task for the current text; `None` until it has finished. */
    var results: Option<seq<SearchResult>>
    /** The host callbacks fired so far, in order. */
    ghost var fired: seq<W.Callback>

    /** The widget's fields as a value. */
    ghost function Snapshot(): W.State
      reads this
    {
      W.State(selected, searchTerms, focused, currResults, results, fired)
    }

    ghost predicate Valid()
      reads this
    {
      W.Valid(Snapshot())
    }

    /**
     * A widget configured from the environment entry `env` (or the defaults), with
     * the host's lookup table and initial text.
     */
    constructor (env: Option<Endpoint.EnvConfig>, typeTitleLookup: map<string, string>, searchTerms: string)
      ensures config == Endpoint.ResolveConfig(env) && this.typeTitleLookup == typeTitleLookup
      ensures Snapshot() == W.Initial(searchTerms) && Valid()
    {
      config := Endpoint.ResolveConfig(env);
      this.typeTitleLookup := typeTitleLookup;
      selected := 0;
      this.searchTerms := searchTerms;
      focused := false;
      currResults := [];
      results := None;
      fired := [];
    }

    /**
     * The input's text becomes `t` (the template's two-way binding). A change of
     * text starts a new search task, whose value is not there yet.
     */
    method SetSearchTerms(t: string)
      requires Valid()
      modifies this
      ensures Valid() && Snapshot() == W.SetSearchTerms(old(Snapshot()), t)
      ensures searchTerms == t
      ensures results == if t == old(searchTerms) then old(results) else None
    {
      if t != searchTerms {
        results := None;
      }
      searchTerms := t;
    }

    /**
     * The search task for the current text runs to completion, the server
     * answering `response`. Returns the URL fetched, or `None` when the text is
     * too short and the search task is cancelled before fetching.
     */
    method FinishSearch(response: seq<ServerResult>) returns (url: Option<string>)
      requires Valid()
      modifies this
      ensures Valid() && Snapshot() == W.Complete(old(Snapshot()), config, typeTitleLookup, response)
      ensures url.None? <==> |searchTerms| < MinQueryLength
      ensures url.Some? ==> url.value == Endpoint.Endpoint(config, searchTerms)
      ensures url.Some? ==> results == Some(currResults) && Strip(currResults) == response
      ensures url.None? ==> Snapshot() == old(Snapshot())
    {
      if |searchTerms| < MinQueryLength {
        url := None;
        return;
      }
      url := Some(Endpoint.Endpoint(config, searchTerms));
      var merged := Annotate(response, typeTitleLookup);
      currResults := merged;
      results := Some(merged);
    }

    /**
     * The `keyUp` handler. Up and Down move the cursor one place within the
     * results (and only when they are present); Escape clears the text and
     * drops the focus; every other key does nothing.
     */
    method KeyUp(keyCode: int)
      requires Valid()
      modifies this
      ensures Valid() && Snapshot() == W.KeyUp(old(Snapshot()), keyCode)
      ensures keyCode == W.UpKey ==>
        selected == if old(results).Some? && old(selected) > 0 then old(selected) - 1 else old(selected)
      ensures keyCode == W.DownKey ==>
        selected == if old(results).Some? && old(selected) < W.ResultsCount(old(results)) - 1
                    then old(selected) + 1 else old(selected)
      ensures keyCode == W.EscapeKey ==>
        searchTerms == "" && !focused && results.None? && fired == old(fired) + [W.OnClear]
      ensures keyCode != W.EscapeKey ==>
        searchTerms == old(searchTerms) && focused == old(focused) && currResults == old(currResults)
        && results == old(results) && fired == old(fired)
    {
      var sel := selected;
      var count: int := W.ResultsCount(results);
      if keyCode in {W.UpKey, W.DownKey, W.EscapeKey} {
        var res := results;
        if keyCode == W.UpKey {
          if res.Some? && sel > 0 {
            selected := sel - 1;
          }
        }
        if keyCode == W.DownKey {
          if res.Some? && sel < count - 1 {
            selected := sel + 1;
          }
        }
        if keyCode == W.EscapeKey {
          Clear();
          HandleFocusOut();
        }
      }
    }

    /**
     * The `keyPress` handler. Enter with a non-empty list commits the result
     * under the cursor; with the cursor past the list, `goTo` gets no result and
     * fails, leaving the fields as they were.
     */
    method KeyPress(keyCode: int) returns (outcome: W.EnterOutcome)
      requires Valid()
      modifies this
      ensures Valid() && Snapshot() == W.KeyPress(old(Snapshot()), keyCode)
      ensures outcome == W.PressOutcome(old(Snapshot()), keyCode)
      ensures outcome.Commit? ==> outcome.result == old(results).value[old(selected)]
      ensures !outcome.Commit? ==> Snapshot() == old(Snapshot())
    {
      var sel := selected;
      outcome := W.NoCommit;
      if keyCode == W.EnterKey {
        var res := results;
        if res.Some? && |res.value| > 0 {
          if 0 <= sel < |res.value| {
            var r := res.value[sel];
            GoTo(r);
            outcome := W.Commit(r);
          } else {
            outcome := W.StaleCursor;
          }
        }
      }
    }

    /** The `clear` action: empty text, then `onClear`. */
    method Clear()
      requires Valid()
      modifies this
      ensures Valid() && Snapshot() == W.Clear(old(Snapshot()))
      ensures searchTerms == "" && results.None? && fired == old(fired) + [W.OnClear]
    {
      SetSearchTerms("");
      fired := fired + [W.OnClear];
    }

    /**
     * The `goTo` action: the cursor back to 0, the text set to the result's label,
     * focus dropped, the published list emptied, and `onSelect` given the result.
     */
    method GoTo(r: SearchResult)
      requires Valid()
      modifies this
      ensures Valid() && Snapshot() == W.GoTo(old(Snapshot()), r)
      ensures selected == 0 && searchTerms == r.labelText && !focused && currResults == []
      ensures fired == old(fired) + [W.OnSelect(r)]
    {
      SetSearchTerms(r.labelText);
      selected, focused, currResults := 0, false, [];
      fired := fired + [W.OnSelect(r)];
    }

    /** The `handleFocusIn` action. */
    method HandleFocusIn()
      requires Valid()
      modifies this
      ensures Valid() && Snapshot() == W.FocusIn(old(Snapshot())) && focused
    {
      focused := true;
    }

    /** The `handleFocusOut` action. */
    method HandleFocusOut()
      requires Valid()
      modifies this
      ensures Valid() && Snapshot() == W.FocusOut(old(Snapshot())) && !focused
    {
      focused := false;
    }

    /** The `handleHoverResult` action: tells the host which result is hovered. */
    method HandleHoverResult(r: SearchResult)
      requires Valid()
      modifies this
      ensures Valid() && Snapshot() == W.HoverResult(old(Snapshot()), r)
      ensures fired == old(fired) + [W.OnHoverResult(r)]
    {
      fired := fired + [W.OnHoverResult(r)];
    }

    /** The `handleHoverOut` action. */
    method HandleHoverOut()
      requires Valid()
      modifies this
      ensures Valid() && Snapshot() == W.HoverOut(old(Snapshot()))
      ensures fired == old(fired) + [W.OnHoverOut]
    {
      fired := fired + [W.OnHoverOut];
    }
  }
}
