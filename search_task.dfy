/**
 * The body of the debounced search task: the length guard that decides whether
 * anything is fetched, and the annotation that numbers the parsed results and
 * gives each a display title. The network round trip itself is an input here:
 * `response` is the parsed JSON array the server sent back for the URL.
 */
module SearchTask {
  import opened Wrappers
  import Endpoint

  /** Search terms shorter than this end the search task before anything is fetched. */
  const MinQueryLength := 3

  /** The title given to a result whose type has no (non-empty) title in the lookup. */
  const DefaultTitle := "Result"

  /** The widget's own `typeTitleLookup` when the host passes none. */
  const DefaultTypeTitleLookup: map<string, string> := map["lot" := "Lot"]

  /**
   * One element of the server's JSON array: its `type`, its `label`, and every
   * other field it carries, passed through untouched.
   */
  datatype ServerResult = ServerResult(resultType: string, labelText: string, other: map<string, string>)

  /** A result as the widget shows it: the server's fields plus `id` and `typeTitle`. */
  datatype SearchResult = SearchResult(
    id: int, resultType: string, labelText: string, typeTitle: string, other: map<string, string>)

  /**
   * The display title of a result type: its entry in the lookup when that is a
   * non-empty string, the default title otherwise. It is never empty.
   */
  function TypeTitle(lookup: map<string, string>, resultType: string): (title: string)
    ensures title != ""
    ensures resultType in lookup && lookup[resultType] != "" ==> title == lookup[resultType]
    ensures resultType !in lookup || lookup[resultType] == "" ==> title == DefaultTitle
  {
    if resultType in lookup && lookup[resultType] != "" then lookup[resultType] else DefaultTitle
  }

  /** The server record a shown result was made from. */
  function Original(r: SearchResult): ServerResult {
    ServerResult(r.resultType, r.labelText, r.other)
  }

  /**
   * Annotates the parsed response: element `i` gets `id == i` and the title of its
   * type; the list keeps its length and order, and every server field is kept.
   */
  function Annotate(response: seq<ServerResult>, lookup: map<string, string>): (results: seq<SearchResult>)
    ensures |results| == |response|
    ensures forall i :: 0 <= i < |results| ==> results[i].id == i
    ensures forall i :: 0 <= i < |results| ==> Original(results[i]) == response[i]
    ensures forall i :: 0 <= i < |results| ==> results[i].typeTitle == TypeTitle(lookup, response[i].resultType)
  {
    seq(|response|, i requires 0 <= i < |response| =>
      SearchResult(i, response[i].resultType, response[i].labelText,
                   TypeTitle(lookup, response[i].resultType), response[i].other))
  }

  /** Forgets the annotation: the server records the shown results were made from. */
  function Strip(results: seq<SearchResult>): (response: seq<ServerResult>)
    ensures |response| == |results|
    ensures forall i :: 0 <= i < |results| ==> response[i] == Original(results[i])
  {
    seq(|results|, i requires 0 <= i < |results| => Original(results[i]))
  }

  /** Annotating and then forgetting the annotation gives back the response unchanged. */
  lemma StripAnnotate(response: seq<ServerResult>, lookup: map<string, string>)
    ensures Strip(Annotate(response, lookup)) == response
  {
  }

  /** Annotating the server records behind an annotated list gives that same list back. */
  lemma AnnotateIdempotent(response: seq<ServerResult>, lookup: map<string, string>)
    ensures Annotate(Strip(Annotate(response, lookup)), lookup) == Annotate(response, lookup)
  {
    StripAnnotate(response, lookup);
  }

  /** The example of a single lot: it gets id 0 and the title `Lot`. */
  lemma LotExample()
    ensures Annotate([ServerResult("lot", "123 Broadway", map[])], DefaultTypeTitleLookup)
      == [SearchResult(0, "lot", "123 Broadway", "Lot", map[])]
  {
  }

  /** How one run of the search task ends. */
  datatype TaskResult =
    | Cancelled                                          // terms too short: nothing fetched
    | Fetched(url: string, results: seq<SearchResult>)   // the URL requested and the annotated reply

  /**
   * One run of the search task for `searchTerms`, the server answering `response`:
   * cancelled exactly when the terms are shorter than three characters; otherwise
   * it fetches the endpoint URL of those terms and yields the annotated response.
   */
  function Perform(config: Endpoint.Config, lookup: map<string, string>, searchTerms: string,
                   response: seq<ServerResult>): (t: TaskResult)
    ensures t.Cancelled? <==> |searchTerms| < MinQueryLength
    ensures t.Fetched? ==> t.url == Endpoint.Endpoint(config, searchTerms)
    ensures t.Fetched? ==> t.results == Annotate(response, lookup)
    ensures t.Fetched? ==> |t.results| == |response| && Strip(t.results) == response
    ensures t.Fetched? ==> forall i :: 0 <= i < |t.results| ==> t.results[i].id == i
  {
    if |searchTerms| < MinQueryLength then Cancelled
    else Fetched(Endpoint.Endpoint(config, searchTerms), Annotate(response, lookup))
  }
}
