/** The forwarding proxy in front of Panorama: it reads the API key and the
    Panorama address from two files at start-up, answers only GET
    requests, adds the key to the query and maps the path under `/api`. */
module ApiProxy {
  import opened JsString

  const DefaultPanoramaUrl: string := "https://panorama.example.com"
  const UrlKey: string := "PANORAMA_URL="

  /** The longest prefix of t without a line terminator: what `(.+)`
      captures from there. */
  function LineRest(t: string): (r: string)
    ensures StartsWith(t, r)
    ensures forall k :: 0 <= k < |r| ==> !IsLineTerminator(r[k])
    ensures |r| < |t| ==> IsLineTerminator(t[|r|])
  {
    if t == [] || IsLineTerminator(t[0]) then [] else [t[0]] + LineRest(t[1..])
  }

  /** `config.match(/PANORAMA_URL=(.+)/)?.[1]`: the capture at the first
      place where the key is followed by a character other than a line
      terminator. */
  function UrlMatch(config: string): (r: Option<string>)
    ensures r.Some? ==> r.value != "" && forall k :: 0 <= k < |r.value| ==> !IsLineTerminator(r.value[k])
    decreases |config|
  {
    if |config| <= |UrlKey| then None
    else if config[..|UrlKey|] == UrlKey && !IsLineTerminator(config[|UrlKey|]) then
      Some(LineRest(config[|UrlKey|..]))
    else UrlMatch(config[1..])
  }

  /** The key starts at j and a character other than a line terminator
      follows it: a place where the pattern matches. */
  predicate MarkerAt(config: string, j: nat) {
    j + |UrlKey| < |config| && config[j..j + |UrlKey|] == UrlKey && !IsLineTerminator(config[j + |UrlKey|])
  }

  lemma {:induction false} MarkerShift(config: string, j: nat)
    requires config != []
    ensures MarkerAt(config, j + 1) == MarkerAt(config[1..], j)
  {
    if j + 1 + |UrlKey| < |config| {
      forall m | j + 1 <= m < j + 1 + |UrlKey|
        ensures config[m] == config[1..][m - 1]
      {
      }
      assert config[j + 1..j + 1 + |UrlKey|] == config[1..][j..j + |UrlKey|];
    }
  }

  /** A match is the line after the first marker. */
  lemma {:induction false} UrlMatchFirst(config: string) returns (i: nat)
    requires UrlMatch(config).Some?
    ensures MarkerAt(config, i)
    ensures forall j: nat :: j < i ==> !MarkerAt(config, j)
    ensures UrlMatch(config).value == LineRest(config[i + |UrlKey|..])
    decreases |config|
  {
    if config[..|UrlKey|] == UrlKey && !IsLineTerminator(config[|UrlKey|]) {
      i := 0;
    } else {
      var i' := UrlMatchFirst(config[1..]);
      i := i' + 1;
      MarkerShift(config, i');
      assert config[i + |UrlKey|..] == config[1..][i' + |UrlKey|..];
      forall j: nat | j < i
        ensures !MarkerAt(config, j)
      {
        if j > 0 {
          MarkerShift(config, j - 1);
        }
      }
    }
  }

  /** With no match, no position carries a marker. */
  lemma {:induction false} UrlMatchNone(config: string)
    requires UrlMatch(config).None?
    ensures forall j: nat :: !MarkerAt(config, j)
    decreases |config|
  {
    if |config| > |UrlKey| {
      UrlMatchNone(config[1..]);
      forall j: nat
        ensures !MarkerAt(config, j)
      {
        if j > 0 {
          MarkerShift(config, j - 1);
        }
      }
    }
  }

  /** A config file whose first line sets the address gives that address. */
  lemma {:induction false} UrlMatchOfLine(url: string, rest: string)
    requires url != [] && forall k :: 0 <= k < |url| ==> !IsLineTerminator(url[k])
    ensures UrlMatch(UrlKey + url + "\n" + rest) == Some(url)
  {
    var config := UrlKey + url + "\n" + rest;
    assert config[..|UrlKey|] == UrlKey;
    assert config[|UrlKey|] == url[0];
    var t := config[|UrlKey|..];
    assert t == url + "\n" + rest;
    LineRestOf(url, rest);
  }

  lemma {:induction false} LineRestOf(url: string, rest: string)
    requires forall k :: 0 <= k < |url| ==> !IsLineTerminator(url[k])
    ensures LineRest(url + "\n" + rest) == url
    decreases |url|
  {
    if url != [] {
      assert (url + "\n" + rest)[1..] == url[1..] + "\n" + rest;
      LineRestOf(url[1..], rest);
      assert url == [url[0]] + url[1..];
    }
  }

  /** A query string as its list of name/value pairs. */
  type Query = seq<(string, string)>

  /** The values of the pairs with that name, in order. */
  function Named(q: Query, name: string): seq<string> {
    if q == [] then [] else (if q[0].0 == name then [q[0].1] else []) + Named(q[1..], name)
  }

  /** The pairs with any other name, in order. */
  function Without(q: Query, name: string): (r: Query)
    ensures Named(r, name) == []
    ensures |r| <= |q|
  {
    if q == [] then []
    else if q[0].0 == name then Without(q[1..], name)
    else
      var w := Without(q[1..], name);
      assert ([q[0]] + w)[1..] == w;
      [q[0]] + w
  }

  lemma {:induction false} WithoutNamed(q: Query, name: string)
    requires Named(q, name) == []
    ensures Without(q, name) == q
  {
    if q != [] {
      WithoutNamed(q[1..], name);
    }
  }

  function SetFirst(q: Query, name: string, value: string): Query {
    if q == [] then []
    else if q[0].0 == name then [(name, value)] + Without(q[1..], name)
    else [q[0]] + SetFirst(q[1..], name, value)
  }

  /** `URLSearchParams.set`: the first pair with that name gets the value
      and the other pairs with that name go; with none, the pair is added
      at the end. */
  function SetParam(q: Query, name: string, value: string): Query {
    if Named(q, name) != [] then SetFirst(q, name, value) else q + [(name, value)]
  }

  lemma {:induction false} NamedAppend(a: Query, b: Query, name: string)
    ensures Named(a + b, name) == Named(a, name) + Named(b, name)
    ensures Without(a + b, name) == Without(a, name) + Without(b, name)
  {
    if a != [] {
      assert (a + b)[1..] == a[1..] + b;
      NamedAppend(a[1..], b, name);
    } else {
      assert a + b == b;
    }
  }

  lemma {:induction false} SetFirstEffect(q: Query, name: string, value: string)
    requires Named(q, name) != []
    ensures Named(SetFirst(q, name, value), name) == [value]
    ensures Without(SetFirst(q, name, value), name) == Without(q, name)
  {
    if q[0].0 == name {
      var w := Without(q[1..], name);
      assert SetFirst(q, name, value) == [(name, value)] + w;
      assert ([(name, value)] + w)[1..] == w;
      WithoutNamed(w, name);
    } else {
      SetFirstEffect(q[1..], name, value);
      assert SetFirst(q, name, value)[1..] == SetFirst(q[1..], name, value);
    }
  }

  /** After `set`, the name has exactly the one value, and every other
      pair is kept in its order. */
  lemma {:induction false} SetParamEffect(q: Query, name: string, value: string)
    ensures Named(SetParam(q, name, value), name) == [value]
    ensures Without(SetParam(q, name, value), name) == Without(q, name)
  {
    if Named(q, name) != [] {
      SetFirstEffect(q, name, value);
    } else {
      NamedAppend(q, [(name, value)], name);
      assert Without([(name, value)], name) == [];
      assert Named([(name, value)], name) == [value];
    }
  }

  /** `URLSearchParams.toString` without the percent-encoding. */
  function Serialize(q: Query): string {
    if q == [] then ""
    else if |q| == 1 then q[0].0 + "=" + q[0].1
    else q[0].0 + "=" + q[0].1 + "&" + Serialize(q[1..])
  }

  const PanoramaPrefix: string := "/api/panorama"
  const ApiPrefix: string := "/api"

  /** The path sent upstream: `/api/panorama` becomes `/api`, any other
      path outside `/api` is put under it. */
  function RewritePath(path: string): (r: string)
    ensures StartsWith(r, ApiPrefix)
    ensures StartsWith(path, PanoramaPrefix) ==> r == ApiPrefix + path[|PanoramaPrefix|..]
    ensures !StartsWith(path, PanoramaPrefix) && StartsWith(path, ApiPrefix) ==> r == path
    ensures !StartsWith(path, ApiPrefix) ==> r == ApiPrefix + path
  {
    if StartsWith(path, PanoramaPrefix) then ApiPrefix + path[|PanoramaPrefix|..]
    else if !StartsWith(path, ApiPrefix) then ApiPrefix + path
    else path
  }

  /** `panoramaUrlObj.port || 443`. */
  function PortOf(urlPort: string): (port: string)
    ensures urlPort == "" ==> port == "443"
    ensures urlPort != "" ==> port == urlPort
  {
    if urlPort == "" then "443" else urlPort
  }

  /** What the handler does with a request before anything goes upstream.
      `Crash` is the exception `new URL` throws on an address it cannot
      parse: nothing in the handler catches it. */
  datatype Decision =
    | Reject(status: int, error: string)
    | Forward(hostname: string, port: string, path: string)
    | Crash

  /** The Panorama address once `new URL` has parsed it. */
  datatype Upstream = Upstream(hostname: string, port: string)

  /** The request handler's decision; `upstream` is the parsed Panorama
      address, `None` when `new URL` throws on it. */
  function Route(httpMethod: string, path: string, query: Query, apiKey: string, upstream: Option<Upstream>): (d: Decision)
    ensures httpMethod != "GET" ==> d == Reject(405, "Method not allowed")
    ensures httpMethod == "GET" && apiKey == "" ==> d == Reject(500, "API key not configured")
    ensures httpMethod == "GET" && apiKey != "" && upstream.None? ==> d == Crash
    ensures d.Forward? <==> httpMethod == "GET" && apiKey != "" && upstream.Some?
    ensures d.Forward? ==>
      d.hostname == upstream.value.hostname && d.port == PortOf(upstream.value.port) &&
      d.path == RewritePath(path) + "?" + Serialize(SetParam(query, "key", apiKey))
  {
    if httpMethod != "GET" then Reject(405, "Method not allowed")
    else if apiKey == "" then Reject(500, "API key not configured")
    else if upstream.None? then Crash
    else
      Forward(upstream.value.hostname, PortOf(upstream.value.port),
              RewritePath(path) + "?" + Serialize(SetParam(query, "key", apiKey)))
  }

  /** What reaches the client once the request was forwarded: the
      upstream body piped through, or a JSON error. */
  datatype Reply =
    | Piped(status: int, contentType: string)
    | Failure(status: int, error: string, message: string)

  /** The upstream answer, or the error of the upstream request. */
  datatype Outcome = Answered(status: int, contentType: Option<string>) | RequestFailed(message: string)

  /** The upstream status is passed on, with `application/xml` when the
      content type is missing or empty; a failed upstream request is a
      502 that carries the error's message. */
  function Relay(o: Outcome): (r: Reply)
    ensures o.Answered? ==> r.Piped? && r.status == o.status
    ensures o.Answered? && o.contentType.Some? && o.contentType.value != "" ==> r.contentType == o.contentType.value
    ensures o.Answered? && (o.contentType.None? || o.contentType.value == "") ==> r.contentType == "application/xml"
    ensures o.RequestFailed? ==> r == Failure(502, "Proxy error", o.message)
  {
    match o
    case Answered(status, ct) => Piped(status, if ct.Some? && ct.value != "" then ct.value else "application/xml")
    case RequestFailed(message) => Failure(502, "Proxy error", message)
  }

  /** Every forwarded request goes under `/api` and carries the key once,
      whatever key the client sent. */
  lemma {:induction false} ForwardCarriesKey(httpMethod: string, path: string, query: Query, apiKey: string, upstream: Option<Upstream>)
    requires Route(httpMethod, path, query, apiKey, upstream).Forward?
    ensures StartsWith(Route(httpMethod, path, query, apiKey, upstream).path, ApiPrefix)
    ensures Named(SetParam(query, "key", apiKey), "key") == [apiKey]
  {
    var d := Route(httpMethod, path, query, apiKey, upstream);
    var r := RewritePath(path);
    assert d.path == r + ("?" + Serialize(SetParam(query, "key", apiKey)));
    assert d.path[..|ApiPrefix|] == r[..|ApiPrefix|];
    SetParamEffect(query, "key", apiKey);
  }

  /** A configuration file: missing, read, or present but failing to read. */
  datatype ConfigFile = Absent | Contents(text: string) | Unreadable

  /** The module-level configuration and the handler that reads it. */
  class Proxy {
    var apiKey: string
    var panoramaUrl: string

    constructor()
      ensures apiKey == "" && panoramaUrl == DefaultPanoramaUrl
    {
      apiKey := "";
      panoramaUrl := DefaultPanoramaUrl;
    }

    /** `loadConfig`. One try block covers both reads, so a key file
        that fails to read also skips the configuration file. */
    method LoadConfig(keyFile: ConfigFile, configFile: ConfigFile)
      modifies this
      ensures apiKey == if keyFile.Contents? then Trim(keyFile.text) else old(apiKey)
      ensures panoramaUrl ==
        if !keyFile.Unreadable? && configFile.Contents? && UrlMatch(configFile.text).Some?
        then Trim(UrlMatch(configFile.text).value)
        else old(panoramaUrl)
    {
      if keyFile.Unreadable? {
        return;
      }
      if keyFile.Contents? {
        apiKey := Trim(keyFile.text);
      }
      if configFile.Contents? {
        var urlMatch := UrlMatch(configFile.text);
        if urlMatch.Some? {
          panoramaUrl := Trim(urlMatch.value);
        }
      }
    }

    /** The handler up to the upstream request; `parseUrl` is `new URL`,
        `None` where it throws. */
    method Handle(httpMethod: string, path: string, query: Query, parseUrl: string -> Option<Upstream>)
      returns (d: Decision)
      ensures d == Route(httpMethod, path, query, apiKey, parseUrl(panoramaUrl))
    {
      if httpMethod != "GET" {
        return Reject(405, "Method not allowed");
      }
      if apiKey == "" {
        return Reject(500, "API key not configured");
      }
      var queryParams := SetParam(query, "key", apiKey);
      var panoramaUrlObj := parseUrl(panoramaUrl);
      if panoramaUrlObj.None? {
        return Crash;
      }
      var upstream := panoramaUrlObj.value;
      var targetPath := path;
      if StartsWith(targetPath, PanoramaPrefix) {
        targetPath := ApiPrefix + targetPath[|PanoramaPrefix|..];
      } else if !StartsWith(targetPath, ApiPrefix) {
        targetPath := ApiPrefix + targetPath;
      }
      targetPath := targetPath + "?" + Serialize(queryParams);
      var port := if upstream.port == "" then "443" else upstream.port;
      return Forward(upstream.hostname, port, targetPath);
    }
  }
}
