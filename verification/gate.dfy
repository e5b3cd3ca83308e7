/**
 The connection readiness gate: the deferred `open` promise of the client
 together with the sends chained onto it. Sends made before the socket opens
 wait in `pending`; opening releases them in call order, and every later send
 passes straight through.
 */
module ReadinessGate {

  datatype Gate<M> = Gate(open: bool, pending: seq<M>)

  /** A resolved gate holds nothing back. */
  ghost predicate Valid<M>(g: Gate<M>) {
    g.open ==> g.pending == []
  }

  /** The gate as created, before the socket has opened. */
  function Unresolved<M>(): (g: Gate<M>)
    ensures Valid(g) && !g.open
  {
    Gate(false, [])
  }

  /**
   Hands `m` to the gate. The result pairs the new gate with the messages
   that reach the socket now.
   */
  function Send<M>(g: Gate<M>, m: M): (r: (Gate<M>, seq<M>))
    ensures r.0.open == g.open
    ensures !g.open ==> r.1 == []
    ensures g.open ==> r.1 == [m]
    ensures Valid(g) ==> Valid(r.0) && r.1 + r.0.pending == g.pending + [m]
  {
    if g.open then (g, [m]) else (g.(pending := g.pending + [m]), [])
  }

  /**
   Resolves the gate. Everything queued is released exactly once and in
   order; resolving an already resolved gate releases nothing.
   */
  function Open<M>(g: Gate<M>): (r: (Gate<M>, seq<M>))
    ensures r.0.open && Valid(r.0)
    ensures r.1 + r.0.pending == g.pending
    ensures Valid(g) && g.open ==> r == (g, [])
  {
    (Gate(true, []), g.pending)
  }
}
