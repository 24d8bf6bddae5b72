/**
 * The mirror endpoint's URI (LiveViewMirrorUriBuilder): building the path and query a mirror circuit
 * is opened with, and recognising such a URI again.
 *
 * `Uri.EscapeDataString` is a parameter, and a request URI is given as the two things TryParse reads
 * of it: its absolute path and the `circuitId` value of its parsed query (`query.Get("circuitId")`).
 * The case-insensitive comparison folds ASCII letters only.
 */
module MirrorUris {
  import opened Wrappers

  /** A mirror endpoint: the circuit to mirror, the mirror's parent circuit and whether it is a debug view. */
  datatype MirrorUri = MirrorUri(sourceCircuitId: string, parentCircuitId: Option<string>, debugView: bool)

  /** A request URI as TryParse reads it. */
  datatype RequestUri = RequestUri(absolutePath: string, circuitIdParameter: Option<string>)

  const CIRCUIT_ID_QUERY: string := "circuitId="

  /** `s.TrimEnd(c)`: `s` without its trailing run of `c`. */
  function TrimEnd(s: string, c: char): (r: string)
    ensures r <= s
    ensures r == [] || r[|r| - 1] != c
    ensures forall i | |r| <= i < |s| :: s[i] == c
  {
    if s != [] && s[|s| - 1] == c then TrimEnd(s[..|s| - 1], c) else s
  }

  /** `s.TrimStart(c)`: `s` without its leading run of `c`. */
  function TrimStart(s: string, c: char): (r: string)
    ensures |r| <= |s| && r == s[|s| - |r|..]
    ensures r == [] || r[0] != c
    ensures forall i | 0 <= i < |s| - |r| :: s[i] == c
  {
    if s != [] && s[0] == c then TrimStart(s[1..], c) else s
  }

  /** The upper-case mapping of OrdinalIgnoreCase, on ASCII letters. */
  function ToUpper(c: char): char
  {
    if 'a' <= c <= 'z' then (c as int - 32) as char else c
  }

  function Upper(s: string): (r: string)
    ensures |r| == |s| && forall i | 0 <= i < |s| :: r[i] == ToUpper(s[i])
  {
    seq(|s|, i requires 0 <= i < |s| => ToUpper(s[i]))
  }

  /** `a.Equals(b, StringComparison.OrdinalIgnoreCase)`. */
  predicate EqualsIgnoreCase(a: string, b: string)
  {
    Upper(a) == Upper(b)
  }

  /** `s.StartsWith(prefix, StringComparison.OrdinalIgnoreCase)`. */
  predicate StartsWithIgnoreCase(s: string, prefix: string)
  {
    |prefix| <= |s| && EqualsIgnoreCase(s[..|prefix|], prefix)
  }

  /**
   * The path and query of a mirror endpoint: the mirror path, then `?circuitId=` and the escaped
   * source circuit id. Parent and debug view are not written.
   */
  function GetPathAndQuery(mirrorPath: string, escape: string -> string, mirrorUri: MirrorUri): (r: string)
    ensures |mirrorPath| < |r| && r[..|mirrorPath|] == mirrorPath && r[|mirrorPath|] == '?'
    ensures r[|mirrorPath| + 1..] == CIRCUIT_ID_QUERY + escape(mirrorUri.sourceCircuitId)
  {
    mirrorPath + "?" + CIRCUIT_ID_QUERY + escape(mirrorUri.sourceCircuitId)
  }

  /** The path of a path-and-query: everything before the first '?'. */
  function PathPart(s: string): (r: string)
    ensures r <= s && '?' !in r
    ensures |r| < |s| ==> s[|r|] == '?'
  {
    if s == [] || s[0] == '?' then [] else [s[0]] + PathPart(s[1..])
  }

  /** TryParse's path test: equal, up to trailing slashes and letter case, to the mirror path. */
  predicate PathMatches(path: string, mirrorPath: string)
  {
    EqualsIgnoreCase(TrimEnd(path, '/'), TrimEnd(mirrorPath, '/'))
  }

  /**
   * Recognises a mirror endpoint: the path must match the mirror path and the `circuitId` query
   * value must be present and non-empty; the result mirrors that circuit, with no parent and no debug
   * view.
   */
  function TryParse(mirrorPath: string, uri: RequestUri): (r: Option<MirrorUri>)
    ensures r.Some? <==>
      PathMatches(uri.absolutePath, mirrorPath) && uri.circuitIdParameter.Some? && uri.circuitIdParameter.value != ""
    ensures r.Some? ==> r.value == MirrorUri(uri.circuitIdParameter.value, None, false)
  {
    if !EqualsIgnoreCase(TrimEnd(uri.absolutePath, '/'), TrimEnd(mirrorPath, '/')) then None
    else match uri.circuitIdParameter
      case None => None
      case Some(circuitId) => if circuitId == "" then None else Some(MirrorUri(circuitId, None, false))
  }

  /** Trimming ignores one more trailing `c`. */
  lemma TrimEndAppend(s: string, c: char)
    ensures TrimEnd(s + [c], c) == TrimEnd(s, c)
  {
    assert (s + [c])[..|s|] == s;
  }

  /** Upper-casing does not touch '/', so it commutes with trimming slashes. */
  lemma {:induction false} TrimEndUpper(s: string)
    ensures TrimEnd(Upper(s), '/') == Upper(TrimEnd(s, '/'))
  {
    if s != [] && s[|s| - 1] == '/' {
      assert Upper(s)[..|s| - 1] == Upper(s[..|s| - 1]);
      TrimEndUpper(s[..|s| - 1]);
    }
  }

  /** Upper-casing twice is upper-casing once. */
  lemma UpperIdempotent(s: string)
    ensures Upper(Upper(s)) == Upper(s)
  {
  }

  /** Path matching ignores a trailing slash on the request path. */
  lemma PathMatchesTrailingSlash(path: string, mirrorPath: string)
    ensures PathMatches(path + "/", mirrorPath) == PathMatches(path, mirrorPath)
  {
    TrimEndAppend(path, '/');
  }

  /** Path matching ignores the letter case of the request path. */
  lemma PathMatchesUpper(path: string, mirrorPath: string)
    ensures PathMatches(Upper(path), mirrorPath) == PathMatches(path, mirrorPath)
  {
    TrimEndUpper(path);
    UpperIdempotent(TrimEnd(path, '/'));
  }

  /** So TryParse gives the same answer for a request path with a trailing slash, or in upper case. */
  lemma TryParseNormalised(mirrorPath: string, path: string, circuitId: Option<string>)
    ensures TryParse(mirrorPath, RequestUri(path + "/", circuitId)) == TryParse(mirrorPath, RequestUri(path, circuitId))
    ensures TryParse(mirrorPath, RequestUri(Upper(path), circuitId)) == TryParse(mirrorPath, RequestUri(path, circuitId))
  {
    PathMatchesTrailingSlash(path, mirrorPath);
    PathMatchesUpper(path, mirrorPath);
  }

  /**
   * The path part of what GetPathAndQuery builds is the mirror path itself (when the mirror path has no
   * '?'), which TryParse's path test accepts.
   */
  lemma {:induction false} BuiltPathMatches(mirrorPath: string, escape: string -> string, mirrorUri: MirrorUri)
    requires '?' !in mirrorPath
    ensures PathPart(GetPathAndQuery(mirrorPath, escape, mirrorUri)) == mirrorPath
    ensures PathMatches(PathPart(GetPathAndQuery(mirrorPath, escape, mirrorUri)), mirrorPath)
  {
    var r := GetPathAndQuery(mirrorPath, escape, mirrorUri);
    var p := PathPart(r);
    assert p == r[..|p|];
  }
}
