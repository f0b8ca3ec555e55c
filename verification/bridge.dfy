/**
  The broadcast-to-flow bridge (`FlowCaster.listen`), which belongs to an
  external library. It is modelled only by the contract its callers rely
  on: the start command's events come first, then the subscribed
  broadcasts in arrival order; the flow completes at the first event the
  exit condition accepts, and that event is emitted unless `emitExit` is
  false. A failing start command fails the flow before any event.
*/
module Bridge {
  import opened Common
  import opened Events

  /** Position of the first event the exit condition accepts. */
  function FirstExit<R>(xs: seq<R>, exit: R -> bool): (r: Option<nat>)
    ensures r.Some? ==> r.value < |xs| && exit(xs[r.value])
    ensures r.Some? ==> forall j :: 0 <= j < r.value ==> !exit(xs[j])
    ensures r.None? ==> forall j :: 0 <= j < |xs| ==> !exit(xs[j])
    decreases |xs|
  {
    if xs == [] then None
    else if exit(xs[0]) then Some(0)
    else match FirstExit(xs[1..], exit)
      case None => None
      case Some(i) => Some(i + 1)
  }

  /** Consumes events one at a time until the exit condition accepts one. */
  function Scan<R>(xs: seq<R>, exit: R -> bool, emitExit: bool): (s: Stream<R>)
    ensures FirstExit(xs, exit).None? ==> s == Stream(xs, Pending)
    ensures FirstExit(xs, exit).Some? ==>
      var i := FirstExit(xs, exit).value;
      s == Stream(xs[..i] + (if emitExit then [xs[i]] else []), Completed)
    decreases |xs|
  {
    if xs == [] then Stream([], Pending)
    else if exit(xs[0]) then Stream(if emitExit then [xs[0]] else [], Completed)
    else
      var rest := Scan(xs[1..], exit, emitExit);
      Stream([xs[0]] + rest.items, rest.ending)
  }

  /** `FlowCaster.listen(context, BroadcastSetup(actions, startCommand, exitCondition, emitExitEvent))`. */
  function Listen<R>(start: Result<seq<R>, Failure>, incoming: seq<R>, exit: R -> bool, emitExit: bool): (s: Stream<R>)
    ensures start.Err? ==> s == Stream([], Failed(start.error))
    ensures start.Ok? ==> s.ending == Pending || s.ending == Completed
    ensures start.Ok? && s.ending == Pending ==>
      s.items == start.value + incoming
      && forall j :: 0 <= j < |start.value + incoming| ==> !exit((start.value + incoming)[j])
    ensures start.Ok? && s.ending == Completed ==>
      exists i :: 0 <= i < |start.value + incoming|
        && exit((start.value + incoming)[i])
        && (forall j :: 0 <= j < i ==> !exit((start.value + incoming)[j]))
        && s.items == (start.value + incoming)[..i] + (if emitExit then [(start.value + incoming)[i]] else [])
  {
    match start
    case Err(f) => Stream([], Failed(f))
    case Ok(events) => Scan(events + incoming, exit, emitExit)
  }

  /** The start command's events are emitted before any broadcast, up to the exit. */
  lemma StartEventsFirst<R>(start: seq<R>, incoming: seq<R>, exit: R -> bool, emitExit: bool)
    requires forall j :: 0 <= j < |start| ==> !exit(start[j])
    ensures |Listen(Ok(start), incoming, exit, emitExit).items| >= |start|
    ensures Listen(Ok(start), incoming, exit, emitExit).items[..|start|] == start
  {
    var xs := start + incoming;
    var s := Listen(Ok(start), incoming, exit, emitExit);
    assert forall j :: 0 <= j < |start| ==> xs[j] == start[j];
    assert xs[..|start|] == start;
    match FirstExit(xs, exit)
    case None =>
    case Some(i) =>
      assert s.items[..|start|] == xs[..i][..|start|];
  }

  /** A start event accepted by the exit condition ends the flow at once. */
  lemma StartEventCanExit<R>(e: R, incoming: seq<R>, exit: R -> bool, emitExit: bool)
    requires exit(e)
    ensures Listen(Ok([e]), incoming, exit, emitExit)
         == Stream(if emitExit then [e] else [], Completed)
  {
    assert ([e] + incoming)[0] == e;
  }

  /** Events after the exit never reach the collector. */
  lemma ExitIgnoresLaterEvents<R>(xs: seq<R>, later: seq<R>, exit: R -> bool, emitExit: bool)
    requires FirstExit(xs, exit).Some?
    ensures Scan(xs + later, exit, emitExit) == Scan(xs, exit, emitExit)
  {
    var i := FirstExit(xs, exit).value;
    var ys := xs + later;
    assert ys[i] == xs[i];
    assert forall j :: 0 <= j < i ==> ys[j] == xs[j];
    assert FirstExit(ys, exit) == Some(i);
    assert ys[..i] == xs[..i];
  }
}
