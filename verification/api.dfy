/** The frontend's API address: the base URL, chosen once from the build
    settings and the page's location, and `apiUrl`, which joins a path to
    it. The build settings and the location are parameters. */
module Api {
  import opened Wrappers
  import opened Text

  /** The two build settings: `REACT_APP_API_BASE_URL` and
      `REACT_APP_API_PORT`; `None` when unset. */
  datatype Settings = Settings(baseUrl: Option<string>, port: Option<string>)

  /** The page's `window.location`, or `None` when there is no window. */
  datatype Location = Location(hostname: string, protocol: string)

  /** A set, non-empty setting, trimmed; an unset or empty one is "". */
  function RawEnvUrl(s: Settings): (r: string)
    ensures s.baseUrl.Some? && s.baseUrl.value != [] ==> r == Trim(s.baseUrl.value)
    ensures s.baseUrl.None? || s.baseUrl.value == [] ==> r == []
  {
    if s.baseUrl.Some? && s.baseUrl.value != [] then Trim(s.baseUrl.value) else ""
  }

  const DefaultPort: string := "3500"
  const FallbackHost: string := "85.31.61.242"
  const LocalHosts: seq<string> := ["localhost", "127.0.0.1", "0.0.0.0"]

  /** The port setting, trimmed, or "3500" when unset or empty. */
  function ApiPort(s: Settings): (r: string)
    ensures s.port.Some? && s.port.value != [] ==> r == Trim(s.port.value)
    ensures s.port.None? || s.port.value == [] ==> r == DefaultPort
  {
    if s.port.Some? && s.port.value != [] then Trim(s.port.value) else DefaultPort
  }

  function Host(w: Option<Location>): string
  {
    match w
    case Some(l) => l.hostname
    case None => ""
  }

  function Protocol(w: Option<Location>): string
  {
    match w
    case Some(l) => l.protocol
    case None => "http:"
  }

  /** `baseCandidate`: the setting when there is one; otherwise the API
      port on localhost for a local page, on the page's own host for a
      published page, and on the fixed server without a page. */
  function BaseCandidate(s: Settings, w: Option<Location>): string
  {
    var raw := RawEnvUrl(s);
    var port := ApiPort(s);
    var host := Host(w);
    if raw != [] then raw
    else if host in LocalHosts then "http://localhost:" + port
    else if host != [] then Protocol(w) + "//" + host + ":" + port
    else "http://" + FallbackHost + ":" + port
  }

  /** `replace(/\/$/, "")`: one trailing slash, if there is one, is
      removed. */
  function StripTrailingSlash(u: string): (r: string)
    ensures u != [] && u[|u| - 1] == '/' ==> u == r + "/"
    ensures u == [] || u[|u| - 1] != '/' ==> r == u
  {
    if u != [] && u[|u| - 1] == '/' then u[..|u| - 1] else u
  }

  /** `API_BASE_URL`. */
  function ApiBaseUrl(s: Settings, w: Option<Location>): string
  {
    StripTrailingSlash(BaseCandidate(s, w))
  }

  /** `apiUrl(path)`: the base alone for an empty path, otherwise the base
      and the path joined by exactly the slash the path may lack. */
  function ApiUrl(base: string, path: string): (r: string)
    ensures path == [] ==> r == base
    ensures path != [] && path[0] == '/' ==> r == base + path
    ensures path != [] && path[0] != '/' ==> r == base + "/" + path
  {
    if path == [] then base
    else if "/" <= path then base + path
    else base + "/" + path
  }

  // ---------------------------------------------------------------------
  // Properties
  // ---------------------------------------------------------------------

  /** Where the API is served when the base-URL setting is missing: the
      scheme and host the choice falls back to. */
  datatype Origin = Origin(scheme: string, host: string)

  function FallbackOrigin(w: Option<Location>): Origin
  {
    var host := Host(w);
    if host in LocalHosts then Origin("http:", "localhost")
    else if host != [] then Origin(Protocol(w), host)
    else Origin("http:", FallbackHost)
  }

  /** The base-URL setting, when set to something other than blanks, is
      used as it is, less one trailing slash; otherwise the base is the
      fallback origin with the API port, unchanged unless the port itself
      ends in a slash. */
  lemma ApiBaseUrlChoice(s: Settings, w: Option<Location>)
    ensures s.baseUrl.Some? && Trim(s.baseUrl.value) != [] ==>
              ApiBaseUrl(s, w) == StripTrailingSlash(Trim(s.baseUrl.value))
    ensures (s.baseUrl.None? || Trim(s.baseUrl.value) == []) ==>
              var o := FallbackOrigin(w);
              BaseCandidate(s, w) == o.scheme + "//" + o.host + ":" + ApiPort(s)
    ensures (s.baseUrl.None? || Trim(s.baseUrl.value) == []) &&
            (ApiPort(s) == [] || ApiPort(s)[|ApiPort(s)| - 1] != '/') ==>
              var o := FallbackOrigin(w);
              ApiBaseUrl(s, w) == o.scheme + "//" + o.host + ":" + ApiPort(s)
  {
    if s.baseUrl.Some? && s.baseUrl.value == [] {
      assert Trim(s.baseUrl.value) == [];
    }
    if s.baseUrl.None? || Trim(s.baseUrl.value) == [] {
      var o := FallbackOrigin(w);
      FallbackBase(s, w);
      if ApiPort(s) == [] || ApiPort(s)[|ApiPort(s)| - 1] != '/' {
        KeptWhole(o.scheme + "//" + o.host + ":", ApiPort(s));
      }
    }
  }

  lemma FallbackBase(s: Settings, w: Option<Location>)
    requires RawEnvUrl(s) == []
    ensures var o := FallbackOrigin(w);
            BaseCandidate(s, w) == o.scheme + "//" + o.host + ":" + ApiPort(s)
  {
    var host, port := Host(w), ApiPort(s);
    if host in LocalHosts {
      LiteralSplits("http://localhost:", "http:", "//", "localhost", ":", port);
    } else if host == [] {
      LiteralSplits("http://" + FallbackHost + ":", "http:", "//", FallbackHost, ":", port);
    }
  }

  /** Regrouping a concatenation. */
  lemma LiteralSplits(whole: string, a: string, b: string, c: string, d: string, port: string)
    requires whole == a + b + c + d
    ensures whole + port == a + b + c + d + port
  {
  }

  /** An address ending in the port, or in the colon before an empty one,
      loses nothing to the slash removal. */
  lemma KeptWhole(prefix: string, port: string)
    requires prefix != [] && prefix[|prefix| - 1] == ':'
    requires port == [] || port[|port| - 1] != '/'
    ensures StripTrailingSlash(prefix + port) == prefix + port
  {
    var u := prefix + port;
    if port == [] {
      assert u == prefix;
    } else {
      assert u[|u| - 1] == port[|port| - 1];
    }
  }

  /** With no settings at all, the API is on port 3500 of the fixed server
      when there is no page, ... */
  lemma DefaultBaseWithoutPage()
    ensures ApiBaseUrl(Settings(None, None), None) == "http://85.31.61.242:3500"
  {
    ApiBaseUrlChoice(Settings(None, None), None);
  }

  /** ... of localhost for a local page, whatever its protocol, ... */
  lemma DefaultBaseLocal(protocol: string)
    ensures ApiBaseUrl(Settings(None, None), Some(Location("127.0.0.1", protocol))) == "http://localhost:3500"
  {
    ApiBaseUrlChoice(Settings(None, None), Some(Location("127.0.0.1", protocol)));
    assert "127.0.0.1" in LocalHosts;
  }

  /** ... and of the page's own host, with the page's protocol, otherwise. */
  lemma DefaultBasePublished(host: string, protocol: string)
    requires host != [] && host !in LocalHosts
    ensures ApiBaseUrl(Settings(None, None), Some(Location(host, protocol))) == protocol + "//" + host + ":3500"
  {
    var w := Some(Location(host, protocol));
    ApiBaseUrlChoice(Settings(None, None), w);
    assert FallbackOrigin(w) == Origin(protocol, host);
    assert ApiPort(Settings(None, None)) == DefaultPort;
    assert DefaultPort[|DefaultPort| - 1] != '/';
  }

  /** A port setting of blanks is set, so it is not replaced by the
      default: the port comes out empty. */
  lemma BlankPortStaysBlank()
    ensures ApiPort(Settings(None, Some("  "))) == []
  {
    assert AllWhitespace("  ");
    TrimEmptyIffBlank("  ");
  }

  /** Only one trailing slash goes: a base ending in two keeps one. */
  lemma OneSlashOnly(u: string)
    ensures StripTrailingSlash(u + "//") == u + "/"
    ensures StripTrailingSlash(u + "/") == u
  {
    assert (u + "//")[..|u + "//"| - 1] == u + "/";
    assert (u + "/")[..|u + "/"| - 1] == u;
  }

  /** A path with or without its leading slash gives the same address. */
  lemma LeadingSlashOptional(base: string, path: string)
    requires path != [] && path[0] != '/'
    ensures ApiUrl(base, path) == ApiUrl(base, "/" + path)
  {
    assert ("/" + path)[0] == '/';
    assert base + "/" + path == base + ("/" + path);
  }

  /** Every address starts with the base; a non-empty path is what
      follows it, behind exactly one added or kept slash. */
  lemma ApiUrlSplits(base: string, path: string)
    ensures base <= ApiUrl(base, path)
    ensures path != [] ==> var r := ApiUrl(base, path);
              |r| > |base| && r[|base|] == '/' &&
              (r[|base| + 1..] == path || r[|base|..] == path)
  {
    var r := ApiUrl(base, path);
    if path != [] {
      if path[0] == '/' {
        assert r[|base|..] == path;
      } else {
        assert r[|base| + 1..] == path;
      }
    }
  }
}
