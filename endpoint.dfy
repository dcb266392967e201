/**
 * The request URL of the geosearch widget: where its configuration comes from,
 * and how the `endpoint` getter glues host, route, helper list and query together.
 * Nothing is URL-encoded: every piece is copied into the URL as it is.
 */
module Endpoint {
  import opened Wrappers

  /** Where the widget sends its queries: the search service, the route on it, the helper backends. */
  datatype Config = Config(host: string, route: string, helpers: seq<string>)

  /** The `labs-search` entry of the host application's environment; each key may be missing. */
  datatype EnvConfig = EnvConfig(host: Option<string>, route: Option<string>, helpers: Option<seq<string>>)

  const DefaultHost := "https://search-api.planninglabs.nyc"
  const DefaultRoute := "search"
  const DefaultHelpers: seq<string> := ["geosearch", "city-map-street-search", "city-map-alteration"]

  /** The key of one helper parameter. */
  const HelperKey := "helpers[]="

  /**
   * The configuration the constructor settles on: each key of the environment entry
   * when it is there, its default otherwise; a missing entry counts as an empty one.
   */
  function ResolveConfig(env: Option<EnvConfig>): (c: Config)
    ensures env.Some? && env.value.host.Some? ==> c.host == env.value.host.value
    ensures env.Some? && env.value.route.Some? ==> c.route == env.value.route.value
    ensures env.Some? && env.value.helpers.Some? ==> c.helpers == env.value.helpers.value
    ensures env.None? || env.value.host.None? ==> c.host == DefaultHost
    ensures env.None? || env.value.route.None? ==> c.route == DefaultRoute
    ensures env.None? || env.value.helpers.None? ==> c.helpers == DefaultHelpers
  {
    var entry := if env.Some? then env.value else EnvConfig(None, None, None);
    Config(
      if entry.host.Some? then entry.host.value else DefaultHost,
      if entry.route.Some? then entry.route.value else DefaultRoute,
      if entry.helpers.Some? then entry.helpers.value else DefaultHelpers)
  }

  /** The defaults are what an absent environment entry yields. */
  lemma MissingEntryUsesDefaults()
    ensures ResolveConfig(None) == ResolveConfig(Some(EnvConfig(None, None, None)))
    ensures ResolveConfig(None) == Config(DefaultHost, DefaultRoute, DefaultHelpers)
  {
  }

  /**
   * One `helpers[]=<name>&` parameter per helper, in the order given, names copied
   * verbatim. The section is empty exactly when there are no helpers, and otherwise
   * starts with the helper key and ends with the `&` that the query then follows.
   */
  function HelperParams(helpers: seq<string>): (s: string)
    ensures (s == "") == (helpers == [])
    ensures helpers != [] ==> HelperKey <= s && s[|s| - 1] == '&'
  {
    if helpers == [] then "" else HelperKey + helpers[0] + "&" + HelperParams(helpers[1..])
  }

  /** Concatenating helper lists concatenates their parameter sections: the order is kept. */
  lemma {:induction false} HelperParamsAppend(a: seq<string>, b: seq<string>)
    ensures HelperParams(a + b) == HelperParams(a) + HelperParams(b)
  {
    if a != [] {
      assert (a + b)[0] == a[0];
      assert (a + b)[1..] == a[1..] + b;
      HelperParamsAppend(a[1..], b);
      var head := HelperKey + a[0] + "&";
      calc {
        HelperParams(a + b);
        head + HelperParams(a[1..] + b);
        head + (HelperParams(a[1..]) + HelperParams(b));
        (head + HelperParams(a[1..])) + HelperParams(b);
        HelperParams(a) + HelperParams(b);
      }
    } else {
      assert a + b == b;
    }
  }

  /** The position of the first `c` in `s`, if any. */
  function IndexOf(s: string, c: char): (k: Option<nat>)
    ensures k.Some? ==> k.value < |s| && s[k.value] == c && c !in s[..k.value]
    ensures k.None? ==> c !in s
  {
    if s == [] then None
    else if s[0] == c then Some(0)
    else match IndexOf(s[1..], c)
      case None => None
      case Some(j) => Some(j + 1)
  }

  /**
   * Reads a helper section back into the helper names it lists. Whatever it accepts
   * is exactly the section of the names it returns, and no name holds an `&`.
   */
  function ParseHelpers(s: string): (hs: Option<seq<string>>)
    ensures hs.Some? ==> HelperParams(hs.value) == s
    ensures hs.Some? ==> forall i :: 0 <= i < |hs.value| ==> '&' !in hs.value[i]
    decreases |s|
  {
    if s == "" then Some([])
    else if !(HelperKey <= s) then None
    else
      var rest := s[|HelperKey|..];
      match IndexOf(rest, '&')
      case None => None
      case Some(k) =>
        match ParseHelpers(rest[k + 1..])
        case None => None
        case Some(tail) =>
          var name := rest[..k];
          SplitAt(s, HelperKey, rest, k);
          HelperParamsCons(name, tail);
          Some([name] + tail)
  }

  /** A section that starts with one name is that name's parameter followed by the rest. */
  lemma HelperParamsCons(name: string, tail: seq<string>)
    ensures HelperParams([name] + tail) == HelperKey + name + "&" + HelperParams(tail)
  {
    assert ([name] + tail)[0] == name;
    assert ([name] + tail)[1..] == tail;
  }

  /** Cutting `s == key + rest` around the `&` at position `k` of `rest`. */
  lemma SplitAt(s: string, key: string, rest: string, k: nat)
    requires key <= s && rest == s[|key|..] && k < |rest| && rest[k] == '&'
    ensures s == key + rest[..k] + "&" + rest[k + 1..]
  {
    assert s == key + rest;
    assert rest == rest[..k] + "&" + rest[k + 1..];
  }

  /**
   * Round trip: as long as no helper name holds an `&`, the helper section gives
   * back exactly the configured list, in order.
   */
  lemma {:induction false} HelperParamsRoundTrip(helpers: seq<string>)
    requires forall i :: 0 <= i < |helpers| ==> '&' !in helpers[i]
    ensures ParseHelpers(HelperParams(helpers)) == Some(helpers)
  {
    if helpers != [] {
      var h := helpers[0];
      var rest := h + "&" + HelperParams(helpers[1..]);
      assert HelperParams(helpers) == HelperKey + rest;
      assert HelperParams(helpers)[|HelperKey|..] == rest;
      assert rest[|h|] == '&';
      var k := IndexOf(rest, '&');
      assert k.Some?;
      assert k.value == |h|;
      assert rest[..|h|] == h;
      assert rest[|h| + 1..] == HelperParams(helpers[1..]);
      HelperParamsRoundTrip(helpers[1..]);
      assert [h] + helpers[1..] == helpers;
    }
  }

  /**
   * A helper name with an `&` in it is not escaped: the `&` ends the name early,
   * what follows is no helper parameter, and the section does not decode at all.
   */
  lemma AmpersandHelperNotDecoded()
    ensures ParseHelpers(HelperParams(["a&b"])) == None
  {
    var s := HelperParams(["a&b"]);
    assert s == HelperKey + "a&b&";
    var rest := "a&b&";
    assert s[|HelperKey|..] == rest;
    assert IndexOf(rest, '&') == Some(1) by {
      assert rest[0] != '&' && rest[1] == '&';
      assert IndexOf(rest[1..], '&') == Some(0);
    }
    assert rest[2..] == "b&";
    assert !(HelperKey <= "b&");
    assert ParseHelpers("b&") == None;
  }

  /** The fixed start of every request URL. */
  function Base(config: Config): string {
    config.host + "/" + config.route + "?"
  }

  /**
   * The request URL for `searchTerms`: the base, then the helper section, then
   * `q=` and the search terms verbatim as the last characters.
   */
  function Endpoint(config: Config, searchTerms: string): (url: string)
    ensures Base(config) <= url
    ensures |url| == |Base(config)| + |HelperParams(config.helpers)| + 2 + |searchTerms|
    ensures url[|Base(config)|..|url| - |searchTerms| - 2] == HelperParams(config.helpers)
    ensures url[|url| - |searchTerms| - 2..|url| - |searchTerms|] == "q="
    ensures url[|url| - |searchTerms|..] == searchTerms
  {
    var helpers := HelperParams(config.helpers);
    var url := Base(config) + helpers + "q=" + searchTerms;
    assert url == Base(config) + (helpers + ("q=" + searchTerms));
    url
  }

  /**
   * Everything the URL carries can be read back from it: the helper section decodes
   * to the configured helper list, in order, and the query is the tail of the URL.
   */
  lemma EndpointDecodes(config: Config, searchTerms: string)
    requires forall i :: 0 <= i < |config.helpers| ==> '&' !in config.helpers[i]
    ensures var url := Endpoint(config, searchTerms);
      && ParseHelpers(url[|Base(config)|..|url| - |searchTerms| - 2]) == Some(config.helpers)
      && url[|url| - |searchTerms|..] == searchTerms
  {
    var url := Endpoint(config, searchTerms);
    assert url[|Base(config)|..|url| - |searchTerms| - 2] == HelperParams(config.helpers);
    HelperParamsRoundTrip(config.helpers);
  }
}
