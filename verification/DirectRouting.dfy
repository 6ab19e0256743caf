/**
 The choice of a backend for one request: a random pick, unless the path has the form
 "/!host/some/path" and names a backend by its host.
 */
module DirectRouting {
  import opened Wrappers
  import opened GoStrings

  // url.Parse as far as it matters: the host of a URL, or None for one that does not parse.
  type HostParser = string -> Option<string>

  // strings.Index from position `n` on.
  function IndexAt(s: string, sep: char, n: nat): int
    requires n <= |s|
  {
    var i := IndexOf(s[n..], sep);
    if i > -1 then i + n else i
  }

  // Backend `i` is the first whose host is `segment`, and all before it parse.
  predicate FirstMatch(parse: HostParser, backends: seq<string>, segment: string, i: nat) {
    && i < |backends| && parse(backends[i]) == Some(segment)
    && forall j | 0 <= j < i :: parse(backends[j]).Some? && parse(backends[j]) != Some(segment)
  }

  /** The first backend with the given host; "" if there is none before the first backend that
      does not parse. */
  method FindBackend(parse: HostParser, backends: seq<string>, segment: string) returns (found: string)
    ensures found != "" ==> exists i: nat :: FirstMatch(parse, backends, segment, i) && found == backends[i]
    ensures found == "" ==> forall i: nat | FirstMatch(parse, backends, segment, i) :: backends[i] == ""
  {
    var i := 0;
    while i < |backends|
      invariant 0 <= i <= |backends|
      invariant forall j | 0 <= j < i :: parse(backends[j]).Some? && parse(backends[j]) != Some(segment)
    {
      var parsed := parse(backends[i]);
      if parsed.None? {
        return "";
      }
      if parsed.value == segment {
        assert FirstMatch(parse, backends, segment, i);
        return backends[i];
      }
      i := i + 1;
    }
    return "";
  }

  // `host` is what stands between "/!" and the next slash or the end of the path, and
  // `rest` is what follows it.
  predicate Addresses(path: string, host: string, rest: string) {
    path == "/!" + host + rest && '/' !in host && (rest == "" || rest[0] == '/')
  }

  lemma AddressedHost(path: string, host: string, rest: string)
    requires Addresses(path, host, rest)
    ensures var i := IndexOf(path[2..], '/'); host == if i == -1 then path[2..] else path[2..][..i]
  {
    var s, i := path[2..], IndexOf(path[2..], '/');
    assert s == host + rest;
    assert rest != "" ==> s[|host|] == '/';
    assert i == if rest == "" then -1 else |host|;
  }

  /** A path names at most one host. */
  lemma AddressesUnique(path: string, h: string, r: string, h': string, r': string)
    requires Addresses(path, h, r) && Addresses(path, h', r')
    ensures h == h' && r == r'
  {
    AddressedHost(path, h, r);
    AddressedHost(path, h', r');
    assert r == path[2 + |h|..] && r' == path[2 + |h'|..];
  }

  // A direct call: the path names the host of a first match that is not the empty string.
  ghost predicate Direct(parse: HostParser, backends: seq<string>, path: string, backend: string, rest: string) {
    exists host: string, i: nat ::
      Addresses(path, host, rest) && FirstMatch(parse, backends, host, i) && backend == backends[i] && backend != ""
  }

  lemma NotDirect(parse: HostParser, backends: seq<string>, path: string,
                  host: string, rest: string, b: string, s: string)
    requires Addresses(path, host, rest)
    requires forall i: nat | FirstMatch(parse, backends, host, i) :: backends[i] == ""
    ensures !Direct(parse, backends, path, b, s)
  {
    forall h: string | Addresses(path, h, s) ensures h == host {
      AddressesUnique(path, h, s, host, rest);
    }
  }

  datatype Routed = Routed(backend: string, path: string, direct: bool)

  /** The backend and the forwarded path of a request, for a random number below the number of
      backends. With no backends at all the pick panics. */
  method Route(parse: HostParser, backends: seq<string>, path: string, pick: nat) returns (r: Option<Routed>)
    requires pick < |backends| || backends == []
    ensures r.None? <==> backends == []
    ensures r.Some? ==> r.value.backend in backends
    ensures r.Some? && r.value.direct ==> Direct(parse, backends, path, r.value.backend, r.value.path)
    ensures r.Some? && !r.value.direct ==>
              && r.value.backend == backends[pick] && r.value.path == path
              && forall b, rest :: !Direct(parse, backends, path, b, rest)
  {
    if |backends| == 0 {
      return None;
    }
    var backend, forwarded, direct := backends[pick], path, false;
    if |path| >= 2 && path[..2] == "/!" {
      var p := IndexAt(path, '/', 2);
      if p == -1 {
        p := |path|;
      }
      var backendCheck := path[2..p];
      var foundBackend := FindBackend(parse, backends, backendCheck);
      ghost var rest := path[p..];
      assert Addresses(path, backendCheck, rest);
      if foundBackend != "" {
        backend := foundBackend;
        forwarded := path[|backendCheck| + 2..];
        direct := true;
        assert forwarded == rest;
      } else {
        forall b, s ensures !Direct(parse, backends, path, b, s) {
          NotDirect(parse, backends, path, backendCheck, rest, b, s);
        }
      }
    }
    return Some(Routed(backend, forwarded, direct));
  }
}
