/**
 * TrackedCircuit: either a mirror circuit or a regular circuit, built from one of the two and read
 * through accessors that throw when asked for the other kind.
 */
module TrackedCircuits {
  import opened Wrappers

  /** The exception an accessor throws when the circuit is of the other kind. */
  datatype AccessError = NotAMirrorCircuit | NotARegularCircuit

  /**
   * The three readonly fields; `Mirror` and `Regular` below are the only ways to build one, so exactly
   * one of the two references is present and `isMirror` says which.
   */
  datatype TrackedCircuit<M, R> = TrackedCircuit(isMirror: bool, mirrorCircuit: Option<M>, regularCircuit: Option<R>)

  /** Built from a mirror circuit. */
  function Mirror<M, R>(circuit: M): (t: TrackedCircuit<M, R>)
    ensures t.isMirror
    ensures MirrorCircuit(t) == Ok(circuit)
    ensures RegularCircuit(t) == Err(NotARegularCircuit)
  {
    TrackedCircuit(true, Some(circuit), None)
  }

  /** Built from a regular circuit. */
  function Regular<M, R>(circuit: R): (t: TrackedCircuit<M, R>)
    ensures !t.isMirror
    ensures RegularCircuit(t) == Ok(circuit)
    ensures MirrorCircuit(t) == Err(NotAMirrorCircuit)
  {
    TrackedCircuit(false, None, Some(circuit))
  }

  /** The `MirrorCircuit` accessor: the mirror circuit, or the exception when there is none. */
  function MirrorCircuit<M, R>(t: TrackedCircuit<M, R>): (r: Result<M, AccessError>)
    ensures r.Ok? <==> t.mirrorCircuit.Some?
    ensures r.Ok? ==> t.mirrorCircuit == Some(r.value)
    ensures r.Err? ==> r.error == NotAMirrorCircuit
  {
    match t.mirrorCircuit
    case Some(c) => Ok(c)
    case None => Err(NotAMirrorCircuit)
  }

  /** The `RegularCircuit` accessor: the regular circuit, or the exception when there is none. */
  function RegularCircuit<M, R>(t: TrackedCircuit<M, R>): (r: Result<R, AccessError>)
    ensures r.Ok? <==> t.regularCircuit.Some?
    ensures r.Ok? ==> t.regularCircuit == Some(r.value)
    ensures r.Err? ==> r.error == NotARegularCircuit
  {
    match t.regularCircuit
    case Some(c) => Ok(c)
    case None => Err(NotARegularCircuit)
  }
}
