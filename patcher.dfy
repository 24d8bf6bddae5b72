/**
 * The circuit-factory patch (CircuitFactoryPatcher): before Blazor creates a circuit host, a request
 * whose URI targets the mirror endpoint is recognised as a mirror circuit of an open user circuit,
 * and its URI is replaced by that user circuit's URI.
 *
 * Parsing the request URI (`new Uri(uri)`) is a parameter; the mirror path is the options' MirrorUri.
 */
module CircuitFactoryPatching {
  import opened Wrappers
  import opened Circuits
  import opened CircuitTracking
  import opened MirrorUris

  /** The state handed from the prefix to the postfix: whether this is a mirror circuit, and of what. */
  datatype State = State(isMirror: bool, sourceCircuit: Option<Circuit>)

  /** The prefix's two results: the (possibly replaced) `uri` argument and the state. */
  datatype Prefixed = Prefixed(uri: string, state: State)

  /**
   * The path of `uri` below `baseUri`: `uri` must start, ordinally, with `baseUri` less its trailing
   * slashes, and the path is what follows.
   */
  function TryGetUriPath(baseUri: string, uri: string): (r: Option<string>)
    ensures r.Some? <==> TrimEnd(baseUri, '/') <= uri
    ensures r.Some? ==> TrimEnd(baseUri, '/') + r.value == uri
  {
    var trimmed := TrimEnd(baseUri, '/');
    if trimmed <= uri then Some(uri[|trimmed|..]) else None
  }

  /** A trailing slash on the base URI changes nothing. */
  lemma TryGetUriPathTrailingSlash(baseUri: string, uri: string)
    ensures TryGetUriPath(baseUri + "/", uri) == TryGetUriPath(baseUri, uri)
  {
    TrimEndAppend(baseUri, '/');
  }

  /** The path, less its leading slashes, starts (ignoring case) with the mirror path less its leading slashes. */
  predicate TargetsMirrorPath(path: string, mirrorPath: string)
  {
    StartsWithIgnoreCase(TrimStart(path, '/'), TrimStart(mirrorPath, '/'))
  }

  /**
   * CreateCircuitHostAsync's prefix. The request stays a regular circuit, with `uri` untouched, unless
   * each step succeeds: the URI lies below the base URI, its path targets the mirror path, it parses
   * as a mirror URI, the circuit it names is tracked, and that circuit is a user circuit. Then `uri`
   * becomes the source's URI and the state records the source.
   */
  function CreateCircuitHostPrefix(tracker: CircuitTracker, mirrorPath: string, parse: string -> RequestUri,
                                   baseUri: string, uri: string): (r: Prefixed)
    reads tracker, tracker.byId.Values
    ensures r.state.isMirror <==> r.state.sourceCircuit.Some?
    ensures !r.state.isMirror ==> r.uri == uri
    ensures r.state.isMirror <==>
      && TryGetUriPath(baseUri, uri).Some?
      && TargetsMirrorPath(TryGetUriPath(baseUri, uri).value, mirrorPath)
      && TryParse(mirrorPath, parse(uri)).Some?
      && TryParse(mirrorPath, parse(uri)).value.sourceCircuitId in tracker.byId
      && tracker.byId[TryParse(mirrorPath, parse(uri)).value.sourceCircuitId].IsUser()
    ensures r.state.isMirror ==>
      var source := r.state.sourceCircuit.value;
      && source == tracker.byId[TryParse(mirrorPath, parse(uri)).value.sourceCircuitId]
      && r.uri == source.uri
  {
    var regular := Prefixed(uri, State(false, None));
    match TryGetUriPath(baseUri, uri)
    case None => regular
    case Some(path) =>
      if !TargetsMirrorPath(path, mirrorPath) then regular
      else
        match TryParse(mirrorPath, parse(uri))
        case None => regular
        case Some(parsed) =>
          if parsed.sourceCircuitId !in tracker.byId then regular
          else
            var source := tracker.byId[parsed.sourceCircuitId];
            if !source.IsUser() then regular
            else Prefixed(source.uri, State(true, Some(source)))
  }

  /**
   * A request classified as a mirror circuit named a user circuit with a non-empty id through the
   * `circuitId` query value, and its path matched the mirror path; with a valid tracker, the source
   * carries that id.
   */
  lemma MirrorRequest(tracker: CircuitTracker, mirrorPath: string, parse: string -> RequestUri, baseUri: string, uri: string)
    requires CreateCircuitHostPrefix(tracker, mirrorPath, parse, baseUri, uri).state.isMirror
    ensures var request := parse(uri);
      && PathMatches(request.absolutePath, mirrorPath)
      && request.circuitIdParameter.Some? && request.circuitIdParameter.value != ""
      && var source := CreateCircuitHostPrefix(tracker, mirrorPath, parse, baseUri, uri).state.sourceCircuit.value;
         source.IsUser() && (tracker.Valid() ==> source.id == request.circuitIdParameter.value)
  {
  }
}
