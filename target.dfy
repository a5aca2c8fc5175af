/**
 * Composition of the deployment target: the endpoint URI with the fixed
 * segment `managedcicsbundles` appended to its path, rebuilt by the
 * seven-argument `java.net.URI` constructor.
 */
module Target {
  import opened Wrappers
  import opened Text

  /** A port number; -1 when the URI has none. */
  type Port = p: int | -1 <= p

  /**
   * The components of a `java.net.URI` as its getters return them (decoded);
   * None is a null component. A server-based authority also has its user
   * information, host and port filled in; a registry-based one (a name the
   * URI parser cannot read as a host, such as `my_host:9080`) has only the
   * authority, with no host.
   */
  datatype Uri = Uri(
    scheme: Option<string>,
    authority: Option<string>,
    userInfo: Option<string>,
    host: Option<string>,
    port: Port,
    path: Option<string>,
    query: Option<string>,
    fragment: Option<string>)

  /** The decimal digits of a natural number, most significant first. */
  function Decimal(n: nat): string
    decreases n
  {
    if n < 10 then [('0' as int + n) as char]
    else Decimal(n / 10) + [('0' as int + n % 10) as char]
  }

  /** A server-based authority as the URI constructor writes it: `[userInfo@]host[:port]`. */
  function ServerAuthority(userInfo: Option<string>, host: string, port: Port): string {
    (match userInfo case None => "" case Some(u) => u + "@")
    + host
    + (if port == -1 then "" else ":" + Decimal(port))
  }

  /** The exception `new URI(...)` throws, rethrown wrapped in an IOException. */
  datatype UriSyntaxError = RelativePathInAbsoluteUri

  const Segment := "managedcicsbundles"

  /** Two adjacent slashes somewhere in `s`. */
  ghost predicate HasDoubleSlash(s: string) {
    exists i :: 0 <= i && i + 1 < |s| && s[i] == '/' && s[i + 1] == '/'
  }

  /**
   * The target path: a null path becomes the bare segment; otherwise one
   * separator is added unless the path already ends in one.
   */
  function TargetPath(path: Option<string>): (r: string)
    ensures EndsWith(r, Segment)
    ensures path.None? ==> r == Segment
    ensures path.Some? ==>
      var base := r[..|r| - |Segment|];
      && path.value <= base
      && EndsWith(base, "/")
      && |base| - |path.value| == (if EndsWith(path.value, "/") then 0 else 1)
  {
    match path
    case None => Segment
    case Some(p) =>
      var r := (if EndsWith(p, "/") then p else p + "/") + Segment;
      assert r[..|r| - |Segment|] == if EndsWith(p, "/") then p else p + "/";
      r
  }

  lemma EndsWithSlash(p: string)
    ensures EndsWith(p, "/") <==> |p| > 0 && p[|p| - 1] == '/'
  {
    if |p| > 0 && p[|p| - 1] == '/' {
      assert p[|p| - 1..] == "/";
    }
  }

  /** The segment holds no slash. */
  lemma SegmentHasNoSlash(r: string, n: int)
    requires 0 <= n <= |r| && r[n..] == Segment
    ensures forall i :: n <= i < |r| ==> r[i] != '/'
  {
    forall i | n <= i < |r| ensures r[i] != '/' {
      assert r[i] == r[n..][i - n];
    }
  }

  /** A `//` in the endpoint path survives the composition. */
  lemma DoubleSlashKept(p: string, sep: string)
    requires HasDoubleSlash(p)
    ensures HasDoubleSlash(p + sep + Segment)
  {
    var r := p + sep + Segment;
    var i :| 0 <= i && i + 1 < |p| && p[i] == '/' && p[i + 1] == '/';
    assert r[i] == p[i] && r[i + 1] == p[i + 1];
  }

  /** The separator and the segment add no `//`: one there lies inside the endpoint path. */
  lemma DoubleSlashFromPath(p: string, sep: string)
    requires sep == "" || sep == "/"
    requires sep == "/" ==> |p| == 0 || p[|p| - 1] != '/'
    requires HasDoubleSlash(p + sep + Segment)
    ensures HasDoubleSlash(p)
  {
    var r := p + sep + Segment;
    var n := |p| + |sep|;
    assert r[n..] == Segment;
    SegmentHasNoSlash(r, n);
    var i :| 0 <= i && i + 1 < |r| && r[i] == '/' && r[i + 1] == '/';
    assert i + 1 < n;
    // the separator at n - 1 was added only when the path did not end in one
    assert i + 1 < |p|;
    assert r[i] == p[i] && r[i + 1] == p[i + 1];
  }

  /** Composing the target path creates no `//` that the endpoint path did not already hold. */
  lemma TargetPathAddsNoDoubleSlash(path: Option<string>)
    ensures HasDoubleSlash(TargetPath(path)) <==> (path.Some? && HasDoubleSlash(path.value))
  {
    match path
    case None =>
      SegmentHasNoSlash(Segment, 0);
    case Some(p) =>
      var sep := if EndsWith(p, "/") then "" else "/";
      EndsWithSlash(p);
      assert TargetPath(path) == p + sep + Segment;
      if HasDoubleSlash(p) {
        DoubleSlashKept(p, sep);
      }
      if HasDoubleSlash(p + sep + Segment) {
        DoubleSlashFromPath(p, sep);
      }
  }

  /**
   * `new URI(scheme, userInfo, host, port, path, query, fragment)`: a scheme
   * together with a non-empty path that does not start with `/` is refused.
   * Otherwise the URI is written out and read back: the authority is written
   * only when a host is given, from the user information, host and port, so
   * without a host those three are lost; the other components are taken
   * over as given.
   */
  function BuildUri(scheme: Option<string>, userInfo: Option<string>, host: Option<string>, port: Port,
                    path: string, query: Option<string>, fragment: Option<string>): Result<Uri, UriSyntaxError>
  {
    if scheme.Some? && path != "" && path[0] != '/' then Err(RelativePathInAbsoluteUri)
    else match host
      case None => Ok(Uri(scheme, None, None, None, -1, Some(path), query, fragment))
      case Some(h) => Ok(Uri(scheme, Some(ServerAuthority(userInfo, h, port)), userInfo, host, port, Some(path), query, fragment))
  }

  /**
   * The deployment target of an endpoint. Its path is the composed path;
   * scheme, host, query and fragment are the endpoint's. With a host the
   * authority is rebuilt from the endpoint's user information, host and
   * port; without one (a registry-based or absent authority) the target has
   * no authority, user information or port. The construction fails exactly
   * when the endpoint has a scheme and the composed path is relative, which
   * happens when the endpoint has no path (an opaque URI) or a relative one.
   */
  method ComposeTarget(endpoint: Uri) returns (target: Result<Uri, UriSyntaxError>)
    ensures target.Ok? ==>
      && target.value.path == Some(TargetPath(endpoint.path))
      && target.value.scheme == endpoint.scheme && target.value.host == endpoint.host
      && target.value.query == endpoint.query && target.value.fragment == endpoint.fragment
      && (endpoint.host.Some? ==>
            && target.value.authority == Some(ServerAuthority(endpoint.userInfo, endpoint.host.value, endpoint.port))
            && target.value.userInfo == endpoint.userInfo && target.value.port == endpoint.port)
      && (endpoint.host.None? ==>
            target.value.authority.None? && target.value.userInfo.None? && target.value.port == -1)
    ensures target.Err? <==>
      endpoint.scheme.Some? && (endpoint.path.None? || (endpoint.path.value != "" && endpoint.path.value[0] != '/'))
  {
    var path: string;
    if endpoint.path.None? {
      path := "";
    } else if !EndsWith(endpoint.path.value, "/") {
      path := endpoint.path.value + "/";
    } else {
      path := endpoint.path.value;
    }
    path := path + Segment;
    assert path == TargetPath(endpoint.path);
    if endpoint.path.Some? && endpoint.path.value != "" {
      assert path[0] == endpoint.path.value[0];
    }
    target := BuildUri(endpoint.scheme, endpoint.userInfo, endpoint.host, endpoint.port,
                       path, endpoint.query, endpoint.fragment);
  }

  /**
   * An endpoint whose authority is server-based comes back unchanged but for
   * its path.
   */
  lemma ServerBasedEndpointKept(endpoint: Uri)
    requires endpoint.host.Some?
    requires endpoint.authority == Some(ServerAuthority(endpoint.userInfo, endpoint.host.value, endpoint.port))
    requires endpoint.scheme.None? || (endpoint.path.Some? && (endpoint.path.value == "" || endpoint.path.value[0] == '/'))
    ensures BuildUri(endpoint.scheme, endpoint.userInfo, endpoint.host, endpoint.port,
                     TargetPath(endpoint.path), endpoint.query, endpoint.fragment)
         == Ok(endpoint.(path := Some(TargetPath(endpoint.path))))
  {
    var path := TargetPath(endpoint.path);
    if endpoint.path.Some? && endpoint.path.value != "" {
      assert path[0] == endpoint.path.value[0];
    }
  }

  /**
   * `http://my_host:9080/cics`: the underscore makes the authority
   * registry-based, so there is no host, and the target loses the authority:
   * it reads `http:/cics/managedcicsbundles`.
   */
  lemma RegistryAuthorityDropped(path: string)
    requires path == "/cics"
    ensures BuildUri(Some("http"), None, None, -1, TargetPath(Some(path)), None, None)
         == Ok(Uri(Some("http"), None, None, None, -1, Some(path + "/" + Segment), None, None))
  {
    assert !EndsWith(path, "/");
  }
}
