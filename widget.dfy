/**
 * The widget's UI state and what each handler does to it, as values: one
 * function per handler, and lemmas about single steps and about whole
 * sequences of events. The class in module Component performs the same steps
 * in place; each of its methods is specified by the function here.
 */
module Widget {
  import opened Wrappers
  import opened SearchTask
  import Endpoint

  /** Key codes the handlers react to. */
  const EnterKey := 13
  const EscapeKey := 27
  const UpKey := 38
  const DownKey := 40

  /** A notification to the host application (the `on…` callbacks), in the order fired. */
  datatype Callback =
    | OnSelect(result: SearchResult)
    | OnClear
    | OnHoverResult(result: SearchResult)
    | OnHoverOut

  /**
   * What the widget shows and remembers: the cursor `selected`, the input text
   * `searchTerms`, whether the input has focus, the list last published by a
   * finished fetch (`currResults`), the value of the search task for the current search
   * terms (`results`, absent until that task has finished), and the callbacks
   * fired so far.
   */
  datatype State = State(
    selected: int,
    searchTerms: string,
    focused: bool,
    currResults: seq<SearchResult>,
    results: Option<seq<SearchResult>>,
    fired: seq<Callback>)

  /** A fresh widget whose host passed `searchTerms`. */
  function Initial(searchTerms: string): State {
    State(0, searchTerms, false, [], None, [])
  }

  /**
   * The invariant every handler keeps: the cursor is never negative, and search
   * terms too short to fetch for have no results.
   */
  predicate Valid(s: State) {
    s.selected >= 0 && (|s.searchTerms| < MinQueryLength ==> s.results.None?)
  }

  function Max(a: int, b: int): int { if a < b then b else a }
  function Min(a: int, b: int): int { if a < b then a else b }

  /** The `resultsCount` getter: the length of the results, or 0 while they are absent. */
  function ResultsCount(results: Option<seq<SearchResult>>): (n: nat)
    ensures results.None? ==> n == 0
    ensures results.Some? ==> n == |results.value|
  {
    if results.Some? then |results.value| else 0
  }

  /** The cursor lies on a result, or at 0 when there is none. */
  predicate CursorInRange(s: State) {
    0 <= s.selected <= Max(0, ResultsCount(s.results) - 1)
  }

  /**
   * The input text becomes `t`. When that changes the text, the search task for the old
   * text no longer supplies `results`: the one for `t` has not finished yet.
   */
  function SetSearchTerms(s: State, t: string): State {
    s.(searchTerms := t, results := if t == s.searchTerms then s.results else None)
  }

  /** The `clear` action: empty text, then the `onClear` callback. */
  function Clear(s: State): State {
    SetSearchTerms(s, "").(fired := s.fired + [OnClear])
  }

  /** The `handleFocusIn` action. */
  function FocusIn(s: State): State {
    s.(focused := true)
  }

  /** The `handleFocusOut` action. */
  function FocusOut(s: State): State {
    s.(focused := false)
  }

  /** The hover actions only notify the host. */
  function HoverResult(s: State, r: SearchResult): State {
    s.(fired := s.fired + [OnHoverResult(r)])
  }

  function HoverOut(s: State): State {
    s.(fired := s.fired + [OnHoverOut])
  }

  /** The `goTo` action: commit `r`, reset the widget around its label, notify `onSelect`. */
  function GoTo(s: State, r: SearchResult): State {
    SetSearchTerms(s, r.labelText).(selected := 0, focused := false, currResults := [],
                                    fired := s.fired + [OnSelect(r)])
  }

  /** The `keyUp` handler: Up and Down move the cursor, Escape clears and unfocuses. */
  function KeyUp(s: State, keyCode: int): State {
    if keyCode == UpKey then
      if s.results.Some? && s.selected > 0 then s.(selected := s.selected - 1) else s
    else if keyCode == DownKey then
      if s.results.Some? && s.selected < ResultsCount(s.results) - 1 then s.(selected := s.selected + 1) else s
    else if keyCode == EscapeKey then
      FocusOut(Clear(s))
    else
      s
  }

  /** What Enter does with the cursor. */
  datatype EnterOutcome =
    | NoCommit                      // not Enter, or no results to commit
    | Commit(result: SearchResult)  // the result under the cursor goes to `goTo`
    | StaleCursor                   // the cursor is past the list: `goTo` receives no result and fails

  /** The decision the `keyPress` handler takes. */
  function PressOutcome(s: State, keyCode: int): EnterOutcome {
    if keyCode != EnterKey || s.results.None? || |s.results.value| == 0 then NoCommit
    else if 0 <= s.selected < |s.results.value| then Commit(s.results.value[s.selected])
    else StaleCursor
  }

  /** The `keyPress` handler: only a commit changes the state. */
  function KeyPress(s: State, keyCode: int): State {
    match PressOutcome(s, keyCode)
    case Commit(r) => GoTo(s, r)
    case _ => s
  }

  /**
   * The search task for the current text finishes, the server having answered
   * `response`: unless the search task was cancelled, its annotated list becomes both
   * `results` and `currResults`. The cursor is left where it was.
   */
  function Complete(s: State, config: Endpoint.Config, lookup: map<string, string>,
                    response: seq<ServerResult>): State {
    match Perform(config, lookup, s.searchTerms, response)
    case Cancelled => s
    case Fetched(_, list) => s.(results := Some(list), currResults := list)
  }

  /** Everything that can happen to the widget. */
  datatype Event =
    | KeyUpEvent(keyCode: int)
    | KeyPressEvent(keyCode: int)
    | Typed(text: string)
    | FocusInEvent
    | FocusOutEvent
    | HoverResultEvent(result: SearchResult)
    | HoverOutEvent
    | TaskFinished(response: seq<ServerResult>)

  function Step(s: State, config: Endpoint.Config, lookup: map<string, string>, e: Event): State {
    match e
    case KeyUpEvent(k) => KeyUp(s, k)
    case KeyPressEvent(k) => KeyPress(s, k)
    case Typed(t) => SetSearchTerms(s, t)
    case FocusInEvent => FocusIn(s)
    case FocusOutEvent => FocusOut(s)
    case HoverResultEvent(r) => HoverResult(s, r)
    case HoverOutEvent => HoverOut(s)
    case TaskFinished(response) => Complete(s, config, lookup, response)
  }

  /** The state after the events, in order. */
  function Run(s: State, config: Endpoint.Config, lookup: map<string, string>, events: seq<Event>): State
    decreases |events|
  {
    if events == [] then s else Run(Step(s, config, lookup, events[0]), config, lookup, events[1..])
  }

  // ---------------------------------------------------------------------------
  // Single steps

  /** Every event keeps the invariant. */
  lemma StepPreservesValid(s: State, config: Endpoint.Config, lookup: map<string, string>, e: Event)
    requires Valid(s)
    ensures Valid(Step(s, config, lookup, e))
  {
  }

  /**
   * Up with results present moves the cursor up by exactly one unless it is
   * already at 0; Down moves it down by one unless it is at the last result.
   * With results absent neither moves it.
   */
  lemma ArrowMovesCursor(s: State)
    ensures KeyUp(s, UpKey).selected
      == if s.results.Some? && s.selected > 0 then s.selected - 1 else s.selected
    ensures KeyUp(s, DownKey).selected
      == if s.results.Some? && s.selected < |s.results.value| - 1 then s.selected + 1 else s.selected
    ensures s.results.None? ==> KeyUp(s, UpKey) == s && KeyUp(s, DownKey) == s
  {
  }

  /** Every key but Escape moves the cursor at most; the text, focus and lists stay. */
  lemma KeyUpTouchesOnlyCursor(s: State, keyCode: int)
    requires keyCode != EscapeKey
    ensures KeyUp(s, keyCode) == s.(selected := KeyUp(s, keyCode).selected)
    ensures keyCode != UpKey && keyCode != DownKey ==> KeyUp(s, keyCode) == s
  {
  }

  /** Up and Down keep the cursor in range. */
  lemma ArrowKeepsCursorInRange(s: State, keyCode: int)
    requires CursorInRange(s)
    requires keyCode == UpKey || keyCode == DownKey
    ensures CursorInRange(KeyUp(s, keyCode))
  {
  }

  /** Inside the list, Down then Up, and Up then Down, both come back to where they started. */
  lemma ArrowsUndoEachOther(s: State)
    requires s.results.Some?
    ensures 0 <= s.selected < |s.results.value| - 1 ==> KeyUp(KeyUp(s, DownKey), UpKey) == s
    ensures 0 < s.selected < |s.results.value| ==> KeyUp(KeyUp(s, UpKey), DownKey) == s
  {
  }

  /**
   * Escape, from any valid state: empty text, no focus, results absent, one
   * `onClear` notification; the cursor and the published list are left alone.
   */
  lemma EscapeClears(s: State)
    requires Valid(s)
    ensures var t := KeyUp(s, EscapeKey);
      && t.searchTerms == "" && !t.focused && t.results.None?
      && t.fired == s.fired + [OnClear]
      && t.selected == s.selected && t.currResults == s.currResults
  {
  }

  /**
   * Enter with a non-empty list and the cursor on it commits the result under
   * the cursor; without results, or with an empty list, it changes nothing.
   */
  lemma EnterCommitsSelected(s: State)
    ensures s.results.None? || s.results.value == [] ==> KeyPress(s, EnterKey) == s
    ensures s.results.Some? && 0 <= s.selected < |s.results.value| ==>
      KeyPress(s, EnterKey) == GoTo(s, s.results.value[s.selected])
    ensures forall k :: k != EnterKey ==> KeyPress(s, k) == s
  {
  }

  /**
   * After `goTo(r)` the cursor is 0, the text is r's label, the input is
   * unfocused, the published list is empty and `onSelect` has received `r`.
   */
  lemma GoToResets(s: State, r: SearchResult)
    requires Valid(s)
    ensures var t := GoTo(s, r);
      && t.selected == 0 && t.searchTerms == r.labelText && !t.focused && t.currResults == []
      && t.fired == s.fired + [OnSelect(r)]
      && CursorInRange(t) && Valid(t)
  {
  }

  /**
   * A finished task publishes the annotated response exactly when the text is
   * long enough; a shorter text leaves the whole state as it was.
   */
  lemma CompletePublishes(s: State, config: Endpoint.Config, lookup: map<string, string>,
                          response: seq<ServerResult>)
    ensures var t := Complete(s, config, lookup, response);
      && (|s.searchTerms| < MinQueryLength ==> t == s)
      && (|s.searchTerms| >= MinQueryLength ==>
            t.results == Some(Annotate(response, lookup)) && t.currResults == Annotate(response, lookup)
            && t.selected == s.selected && t.searchTerms == s.searchTerms)
  {
  }

  // ---------------------------------------------------------------------------
  // Sequences of events

  /** Any sequence of events keeps the invariant. */
  lemma {:induction false} RunPreservesValid(s: State, config: Endpoint.Config, lookup: map<string, string>,
                                             events: seq<Event>)
    requires Valid(s)
    ensures Valid(Run(s, config, lookup, events))
    decreases |events|
  {
    if events != [] {
      StepPreservesValid(s, config, lookup, events[0]);
      RunPreservesValid(Step(s, config, lookup, events[0]), config, lookup, events[1..]);
    }
  }

  /** Every widget the host can create starts valid, and stays valid whatever happens. */
  lemma ReachableValid(searchTerms: string, config: Endpoint.Config, lookup: map<string, string>,
                       events: seq<Event>)
    ensures Valid(Run(Initial(searchTerms), config, lookup, events))
  {
    RunPreservesValid(Initial(searchTerms), config, lookup, events);
  }

  predicate IsArrow(e: Event) {
    e == KeyUpEvent(UpKey) || e == KeyUpEvent(DownKey)
  }

  /**
   * Any sequence of Up and Down keys keeps the cursor in range, and changes
   * nothing but the cursor.
   */
  lemma {:induction false} ArrowsKeepCursorInRange(s: State, config: Endpoint.Config,
                                                   lookup: map<string, string>, keys: seq<Event>)
    requires CursorInRange(s)
    requires forall i :: 0 <= i < |keys| ==> IsArrow(keys[i])
    ensures CursorInRange(Run(s, config, lookup, keys))
    ensures Run(s, config, lookup, keys) == s.(selected := Run(s, config, lookup, keys).selected)
    decreases |keys|
  {
    if keys != [] {
      var t := Step(s, config, lookup, keys[0]);
      ArrowKeepsCursorInRange(s, keys[0].keyCode);
      KeyUpTouchesOnlyCursor(s, keys[0].keyCode);
      ArrowsKeepCursorInRange(t, config, lookup, keys[1..]);
    }
  }

  /** `n` copies of one event. */
  function Repeat(e: Event, n: nat): (es: seq<Event>)
    ensures |es| == n && forall i :: 0 <= i < n ==> es[i] == e
  {
    seq(n, _ => e)
  }

  /**
   * With results present, `n` presses of Down move the cursor `n` places, stopping
   * at the last result; a cursor already at or past the last result stays put.
   */
  lemma {:induction false} DownRepeated(s: State, config: Endpoint.Config, lookup: map<string, string>, n: nat)
    requires s.results.Some? && s.selected >= 0
    ensures Run(s, config, lookup, Repeat(KeyUpEvent(DownKey), n)).selected
      == if s.selected < |s.results.value| - 1 then Min(s.selected + n, |s.results.value| - 1) else s.selected
    decreases n
  {
    if n > 0 {
      var es := Repeat(KeyUpEvent(DownKey), n);
      assert es[1..] == Repeat(KeyUpEvent(DownKey), n - 1);
      DownRepeated(KeyUp(s, DownKey), config, lookup, n - 1);
    }
  }

  /** With results present, `n` presses of Up move the cursor `n` places, stopping at 0. */
  lemma {:induction false} UpRepeated(s: State, config: Endpoint.Config, lookup: map<string, string>, n: nat)
    requires s.results.Some? && s.selected >= 0
    ensures Run(s, config, lookup, Repeat(KeyUpEvent(UpKey), n)).selected == Max(s.selected - n, 0)
    decreases n
  {
    if n > 0 {
      var es := Repeat(KeyUpEvent(UpKey), n);
      assert es[1..] == Repeat(KeyUpEvent(UpKey), n - 1);
      UpRepeated(KeyUp(s, UpKey), config, lookup, n - 1);
    }
  }

  /**
   * The cursor is not reset when new results arrive, so it can end up past a
   * shorter list: two results, Down, one more letter, one result, Enter.
   */
  lemma StaleCursorReachable(config: Endpoint.Config, lookup: map<string, string>,
                             a: ServerResult, b: ServerResult)
    ensures var s := Run(Initial(""), config, lookup,
                         [Typed("broadway"), TaskFinished([a, b]), KeyUpEvent(DownKey),
                          Typed("broadwa"), TaskFinished([a])]);
      && s.selected == 1 && s.results.Some? && |s.results.value| == 1
      && PressOutcome(s, EnterKey) == StaleCursor
      && KeyPress(s, EnterKey) == s
  {
    var s0 := Initial("");
    var s1 := SetSearchTerms(s0, "broadway");
    var s2 := Complete(s1, config, lookup, [a, b]);
    var s3 := KeyUp(s2, DownKey);
    var s4 := SetSearchTerms(s3, "broadwa");
    var s5 := Complete(s4, config, lookup, [a]);
    assert s5.selected == 1 && |s5.results.value| == 1;
    var es := [Typed("broadway"), TaskFinished([a, b]), KeyUpEvent(DownKey),
               Typed("broadwa"), TaskFinished([a])];
    assert Run(s4, config, lookup, es[4..]) == s5 by {
      assert es[4..][1..] == [];
    }
    assert Run(s3, config, lookup, es[3..]) == s5 by { assert es[3..][1..] == es[4..]; }
    assert Run(s2, config, lookup, es[2..]) == s5 by { assert es[2..][1..] == es[3..]; }
    assert Run(s1, config, lookup, es[1..]) == s5 by { assert es[1..][1..] == es[2..]; }
  }
}
