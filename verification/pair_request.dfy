/**
  `PairRequest`: the public pairing object. Each `perform()` runs the
  engine's pairing flow through four operators: a 20-second operation is
  armed when pairing starts; a "not done" report after the user has seen
  the pairing dialog is turned into an error notification and dropped;
  progress reports postpone the deadline; and on completion the stored
  operation is cancelled. The operation's expiry sends a timeout
  notification, which comes back as a broadcast and fails the flow.
*/
module PairRequest {
  import opened Common
  import opened Events
  import PairApi
  import PairEngine

  const PAIR_SECONDS: int := 20

  /** The state of one `perform()`. */
  datatype Watch = Watch(
    progress: bool,           // mReceivedPairingRequest
    operation: Option<nat>,   // opReference: the id of the last armed operation
    armed: nat,               // how many operations have been armed; the next id
    live: set<nat>,           // armed operations neither fired nor cancelled
    ending: Ending)           // Pending while the engine's flow is open

  /** Every `perform()` starts with a fresh flag and no operation. */
  function Fresh(): (w: Watch)
    ensures !w.progress && w.operation.None? && w.live == {} && w.ending == Pending
  {
    Watch(false, None, 0, {}, Pending)
  }

  /** What reaches the request while a `perform()` runs. */
  datatype Input =
    | Broadcast(event: RawEvent)   // a platform or loopback broadcast
    | Expire(id: nat)              // the 20-second operation `id` reaches its deadline
    | Abandon                      // the collector cancels the flow

  datatype Handled = Handled(w: Watch, kept: seq<Handle>, effects: seq<Effect>)

  /** `detectStart`, `detectError` and `extractDevice` on one pair event. */
  function OnPairEvent(address: Address, w: Watch, ev: PairApi.PairEvent): (h: Handled)
    ensures ev.kind == PairApi.Started ==>
              |h.effects| >= 1 && h.effects[0] == CountForSeconds(w.armed, PAIR_SECONDS)
              && h.w.operation == Some(w.armed) && h.w.armed == w.armed + 1 && h.w.live == w.live + {w.armed}
    ensures ev.kind != PairApi.Started ==> h.w.operation == w.operation && h.w.armed == w.armed && h.w.live == w.live
    ensures ev.kind == PairApi.NotDone && w.progress ==> h.kept == [] && h.effects == [NotifyError(address)]
    ensures !(ev.kind == PairApi.NotDone && w.progress) ==> h.kept == [ev.device]
    ensures ev.kind == PairApi.OnProgress ==>
              h.effects == (if w.operation.Some? then [ResetTime(w.operation.value)] else [])
    ensures ev.kind == PairApi.Succeeded || (ev.kind == PairApi.NotDone && !w.progress) ==> h.effects == []
    ensures h.w.progress == (w.progress || ev.kind == PairApi.OnProgress)
    ensures h.w.ending == w.ending
  {
    var (w1, arm) :=
      if ev.kind == PairApi.Started then
        (w.(operation := Some(w.armed), armed := w.armed + 1, live := w.live + {w.armed}),
         [CountForSeconds(w.armed, PAIR_SECONDS)])
      else (w, []);
    if w1.progress && ev.kind == PairApi.NotDone then Handled(w1, [], arm + [NotifyError(address)])
    else if ev.kind == PairApi.OnProgress then
      var reset := if w1.operation.Some? then [ResetTime(w1.operation.value)] else [];
      Handled(w1.(progress := true), [ev.device], arm + reset)
    else Handled(w1, [ev.device], arm)
  }

  /** `stopTimer`, run by `onCompletion`: cancel the stored operation, if any. */
  function StopTimer(w: Watch): (h: Handled)
    ensures w.operation.None? ==> h == Handled(w, [], [])
    ensures w.operation.Some? ==>
              h.effects == [TimerCancel(w.operation.value)] && h.w.live == w.live - {w.operation.value}
    ensures h.kept == [] && h.w.operation == w.operation && h.w.armed == w.armed
    ensures h.w.progress == w.progress && h.w.ending == w.ending
  {
    match w.operation
    case None => Handled(w, [], [])
    case Some(id) => Handled(w.(live := w.live - {id}), [], [TimerCancel(id)])
  }

  /** The flow ends: record how, then run the completion handler. */
  function Close(w: Watch, ending: Ending): (h: Handled)
    ensures h.w.ending == ending && h.kept == []
    ensures w.operation.None? ==> h.effects == [] && h.w.live == w.live
    ensures w.operation.Some? ==>
              h.effects == [TimerCancel(w.operation.value)] && h.w.live == w.live - {w.operation.value}
    ensures h.w.operation == w.operation && h.w.armed == w.armed && h.w.progress == w.progress
  {
    StopTimer(w.(ending := ending))
  }

  /** The timeout listener: an operation that reaches its deadline notifies the engine, once. */
  function OnTimeout(address: Address, w: Watch, id: nat): (h: Handled)
    ensures id in w.live ==> h.effects == [NotifyTimeout(address)]
    ensures id !in w.live ==> h == Handled(w, [], [])
    ensures h.w == w.(live := w.live - {id}) && h.kept == []
  {
    if id in w.live then Handled(w.(live := w.live - {id}), [], [NotifyTimeout(address)])
    else Handled(w, [], [])
  }

  /** One event through the engine's flow and the request's operators; nothing once the flow has ended. */
  function Deliver(address: Address, w: Watch, e: RawEvent): (h: Handled)
    ensures w.ending != Pending ==> h == Handled(w, [], [])
    ensures |h.kept| <= 1
    ensures h.w.ending != Cancelled || w.ending == Cancelled
    ensures w.ending == Pending ==>
              (h.w.ending == Completed <==> PairApi.IsPairCompleted(address, e) && PairApi.DetectError(e).out.Ok?)
    ensures w.ending == Pending && h.w.ending != Pending && h.w.operation.Some? ==> h.w.operation.value !in h.w.live
    ensures !PairApi.ForTarget(address, e) ==> h == Handled(w, [], [])
  {
    if w.ending != Pending then Handled(w, [], [])
    else
      var a := PairApi.Step(address, e);
      var h := if a.events == [] then Handled(w, [], []) else OnPairEvent(address, w, a.events[0]);
      if a.closed.Some? then
        var c := Close(h.w, a.closed.value);
        Handled(c.w, h.kept, a.effects + h.effects + c.effects)
      else Handled(h.w, h.kept, a.effects + h.effects)
  }

  /** The start command's events, delivered in order. */
  function DeliverAll(address: Address, w: Watch, xs: seq<RawEvent>): Handled
    decreases |xs|
  {
    if xs == [] then Handled(w, [], [])
    else
      var h := Deliver(address, w, xs[0]);
      var r := DeliverAll(address, h.w, xs[1..]);
      Handled(r.w, h.kept + r.kept, h.effects + r.effects)
  }

  function Step(address: Address, w: Watch, input: Input): (h: Handled)
    ensures |h.kept| <= 1
  {
    match input
    case Broadcast(e) => if PairApi.Subscribed(e) then Deliver(address, w, e) else Handled(w, [], [])
    case Expire(id) => OnTimeout(address, w, id)
    case Abandon => if w.ending == Pending then Close(w, Cancelled) else Handled(w, [], [])
  }

  /** The devices a `perform()` emits, how it ended, the calls it made, and its final state. */
  datatype Outcome = Outcome(devices: seq<Handle>, ending: Ending, effects: seq<Effect>, w: Watch)

  function Session(address: Address, w: Watch, inputs: seq<Input>): (r: Outcome)
    decreases |inputs|
  {
    if inputs == [] then Outcome([], w.ending, [], w)
    else
      var h := Step(address, w, inputs[0]);
      var r := Session(address, h.w, inputs[1..]);
      Outcome(h.kept + r.devices, r.ending, h.effects + r.effects, r.w)
  }

  /** `PairRequest.perform()`: the engine's power cycle and start command, then the session. */
  function Perform(address: Address, radioOn: bool, remote: PairApi.Remote, inputs: seq<Input>): Outcome {
    var reset := ResetRadio(radioOn);
    var launch := PairApi.StartPairProcess(address, remote);
    var first :=
      match launch.events
      case Err(f) => Close(Fresh(), Failed(f))
      case Ok(starts) => DeliverAll(address, Fresh(), starts);
    var r := Session(address, first.w, inputs);
    Outcome(first.kept + r.devices, r.ending, reset + launch.effects + first.effects + r.effects, r.w)
  }

  // ---------------------------------------------------------------------
  // The operators over a whole stream of pair events.

  /** Whether a progress report has been seen, after `evs`. */
  function Seen(seen: bool, evs: seq<PairApi.PairEvent>): bool
    decreases |evs|
  {
    if evs == [] then seen else Seen(seen || evs[0].kind == PairApi.OnProgress, evs[1..])
  }

  /** The devices `perform()` passes on: every event except a "not done" after a progress report. */
  function Kept(seen: bool, evs: seq<PairApi.PairEvent>): seq<Handle>
    decreases |evs|
  {
    if evs == [] then []
    else
      (if seen && evs[0].kind == PairApi.NotDone then [] else [evs[0].device])
      + Kept(seen || evs[0].kind == PairApi.OnProgress, evs[1..])
  }

  /** How many events the progress rule drops. */
  function Dropped(seen: bool, evs: seq<PairApi.PairEvent>): nat
    decreases |evs|
  {
    if evs == [] then 0
    else (if seen && evs[0].kind == PairApi.NotDone then 1 else 0) + Dropped(seen || evs[0].kind == PairApi.OnProgress, evs[1..])
  }

  /** Each event is either passed on or dropped. */
  lemma {:induction false} KeptOrDropped(seen: bool, evs: seq<PairApi.PairEvent>)
    ensures |Kept(seen, evs)| + Dropped(seen, evs) == |evs|
    decreases |evs|
  {
    if evs != [] {
      KeptOrDropped(seen || evs[0].kind == PairApi.OnProgress, evs[1..]);
    }
  }

  /** A "not done" report is dropped exactly when a progress report came before it. */
  lemma {:induction false} DroppedMeansProgressFirst(seen: bool, evs: seq<PairApi.PairEvent>)
    requires forall i :: 0 <= i < |evs| ==> evs[i].kind != PairApi.NotDone || (!seen && forall j :: 0 <= j < i ==> evs[j].kind != PairApi.OnProgress)
    ensures Dropped(seen, evs) == 0
    decreases |evs|
  {
    if evs != [] {
      var s' := seen || evs[0].kind == PairApi.OnProgress;
      forall i | 0 <= i < |evs[1..]|
        ensures evs[1..][i].kind != PairApi.NotDone || (!s' && forall j :: 0 <= j < i ==> evs[1..][j].kind != PairApi.OnProgress)
      {
        assert evs[1..][i] == evs[i + 1];
        if evs[i + 1].kind == PairApi.NotDone {
          assert forall j :: 0 <= j < i + 1 ==> evs[j].kind != PairApi.OnProgress;
          assert evs[0].kind != PairApi.OnProgress;
          forall j | 0 <= j < i ensures evs[1..][j].kind != PairApi.OnProgress {
            assert evs[1..][j] == evs[j + 1];
          }
        }
      }
      DroppedMeansProgressFirst(s', evs[1..]);
    }
  }

  lemma {:induction false} KeptAppend(seen: bool, a: seq<PairApi.PairEvent>, b: seq<PairApi.PairEvent>)
    ensures Kept(seen, a + b) == Kept(seen, a) + Kept(Seen(seen, a), b)
    ensures Dropped(seen, a + b) == Dropped(seen, a) + Dropped(Seen(seen, a), b)
    ensures Seen(seen, a + b) == Seen(Seen(seen, a), b)
    decreases |a|
  {
    if a == [] {
      assert a + b == b;
    } else {
      assert (a + b)[0] == a[0] && (a + b)[1..] == a[1..] + b;
      var s' := seen || a[0].kind == PairApi.OnProgress;
      KeptAppend(s', a[1..], b);
      AppendAssoc(if seen && a[0].kind == PairApi.NotDone then [] else [a[0].device], Kept(s', a[1..]), Kept(Seen(s', a[1..]), b));
    }
  }

  // ---------------------------------------------------------------------
  // What a `perform()` promises.

  /** Once seen, the progress flag stays set for the rest of the `perform()`. */
  lemma {:induction false} ProgressIsSticky(address: Address, w: Watch, inputs: seq<Input>)
    requires w.progress
    ensures Session(address, w, inputs).w.progress
    decreases |inputs|
  {
    if inputs != [] {
      var h := Step(address, w, inputs[0]);
      assert h.w.progress;
      ProgressIsSticky(address, h.w, inputs[1..]);
    }
  }

  /** One delivered event does to the request what the operators do to the flow's output for it. */
  lemma DeliverFollowsStep(address: Address, w: Watch, x: RawEvent)
    requires w.ending == Pending
    ensures var h := Deliver(address, w, x);
            var a := PairApi.Step(address, x);
            h.w.ending == (if a.closed.Some? then a.closed.value else Pending)
            && h.kept == Kept(w.progress, a.events)
            && h.w.progress == Seen(w.progress, a.events)
            && Count(NotifyError(address), h.effects) == Dropped(w.progress, a.events)
  {
    DeliverKeeps(address, w, x);
    DeliverNotifies(address, w, x);
  }

  lemma DeliverKeeps(address: Address, w: Watch, x: RawEvent)
    requires w.ending == Pending
    ensures var h := Deliver(address, w, x);
            var a := PairApi.Step(address, x);
            h.w.ending == (if a.closed.Some? then a.closed.value else Pending)
            && h.kept == Kept(w.progress, a.events)
            && h.w.progress == Seen(w.progress, a.events)
  {
    var a := PairApi.Step(address, x);
    if a.events != [] {
      assert a.events[1..] == [];
    }
  }

  lemma DeliverNotifies(address: Address, w: Watch, x: RawEvent)
    requires w.ending == Pending
    ensures Count(NotifyError(address), Deliver(address, w, x).effects)
         == Dropped(w.progress, PairApi.Step(address, x).events)
  {
    var a := PairApi.Step(address, x);
    var o := if a.events == [] then Handled(w, [], []) else OnPairEvent(address, w, a.events[0]);
    var c := if a.closed.Some? then Close(o.w, a.closed.value).effects else [];
    assert Deliver(address, w, x).effects == a.effects + o.effects + c;
    assert Count(NotifyError(address), a.effects) == 0 && Count(NotifyError(address), c) == 0 by {
      CountAbsent(NotifyError(address), a.effects);
      CountAbsent(NotifyError(address), c);
    }
    assert Count(NotifyError(address), o.effects) == Dropped(w.progress, a.events) by {
      if a.events != [] {
        assert a.events[1..] == [];
        PairEventNotifies(address, w, a.events[0]);
      }
    }
    CountAppend(NotifyError(address), a.effects + o.effects, c);
    CountAppend(NotifyError(address), a.effects, o.effects);
  }

  /** The operators notify one error for a "not done" report after progress, and none otherwise. */
  lemma PairEventNotifies(address: Address, w: Watch, ev: PairApi.PairEvent)
    ensures Count(NotifyError(address), OnPairEvent(address, w, ev).effects)
         == (if w.progress && ev.kind == PairApi.NotDone then 1 else 0)
  {
    var o := OnPairEvent(address, w, ev);
    if w.progress && ev.kind == PairApi.NotDone {
      assert o.effects[1..] == [];
    } else {
      assert forall i :: 0 <= i < |o.effects| ==> o.effects[i] != NotifyError(address);
      CountAbsent(NotifyError(address), o.effects);
    }
  }

  /** Once the flow has ended, delivering more events changes nothing. */
  lemma {:induction false} DeliverAllClosed(address: Address, w: Watch, xs: seq<RawEvent>)
    requires w.ending != Pending
    ensures DeliverAll(address, w, xs) == Handled(w, [], [])
    decreases |xs|
  {
    if xs != [] {
      DeliverAllClosed(address, w, xs[1..]);
    }
  }

  /** Over a whole stream of events the request passes on what the operators keep from the flow's output. */
  lemma {:induction false} DeliverAllFollowsFeed(address: Address, w: Watch, xs: seq<RawEvent>)
    requires w.ending == Pending
    ensures var h := DeliverAll(address, w, xs);
            var f := PairApi.Feed(address, xs);
            h.w.ending == f.ending && h.kept == Kept(w.progress, f.events)
            && Count(NotifyError(address), h.effects) == Dropped(w.progress, f.events)
    decreases |xs|
  {
    if xs != [] {
      var a := PairApi.Step(address, xs[0]);
      var h := Deliver(address, w, xs[0]);
      var r := DeliverAll(address, h.w, xs[1..]);
      DeliverFollowsStep(address, w, xs[0]);
      CountAppend(NotifyError(address), h.effects, r.effects);
      if a.closed.Some? {
        DeliverAllClosed(address, h.w, xs[1..]);
        assert PairApi.Feed(address, xs).events == a.events;
        assert h.kept + [] == h.kept;
      } else {
        DeliverAllFollowsFeed(address, h.w, xs[1..]);
        var f := PairApi.Feed(address, xs[1..]);
        assert PairApi.Feed(address, xs).events == a.events + f.events;
        KeptAppend(w.progress, a.events, f.events);
      }
    }
  }

  lemma {:induction false} DeliverAllAppend(address: Address, w: Watch, a: seq<RawEvent>, b: seq<RawEvent>)
    ensures var x := DeliverAll(address, w, a);
            var y := DeliverAll(address, x.w, b);
            DeliverAll(address, w, a + b) == Handled(y.w, x.kept + y.kept, x.effects + y.effects)
    decreases |a|
  {
    if a == [] {
      assert a + b == b;
    } else {
      var xs := a + b;
      assert xs[0] == a[0] && xs[1..] == a[1..] + b;
      var h := Deliver(address, w, a[0]);
      DeliverAllAppend(address, h.w, a[1..], b);
      var x' := DeliverAll(address, h.w, a[1..]);
      var y := DeliverAll(address, x'.w, b);
      AppendAssoc(h.kept, x'.kept, y.kept);
      AppendAssoc(h.effects, x'.effects, y.effects);
    }
  }

  /** The broadcasts among the inputs, in order. */
  function EventsOf(inputs: seq<Input>): (r: seq<RawEvent>)
    decreases |inputs|
  {
    if inputs == [] then []
    else (if inputs[0].Broadcast? then [inputs[0].event] else []) + EventsOf(inputs[1..])
  }

  predicate OnlyBroadcasts(inputs: seq<Input>) {
    forall i :: 0 <= i < |inputs| ==> inputs[i].Broadcast?
  }

  /** With broadcasts only, a session is the delivery of the subscribed ones. */
  lemma {:induction false} SessionDelivers(address: Address, w: Watch, inputs: seq<Input>)
    requires OnlyBroadcasts(inputs)
    ensures var r := Session(address, w, inputs);
            var d := DeliverAll(address, w, PairApi.Delivered(EventsOf(inputs)));
            r.devices == d.kept && r.effects == d.effects && r.w == d.w && r.ending == d.w.ending
    decreases |inputs|
  {
    if inputs == [] {
    } else {
      assert OnlyBroadcasts(inputs[1..]) by {
        forall i | 0 <= i < |inputs[1..]| ensures inputs[1..][i].Broadcast? {
          assert inputs[1..][i] == inputs[i + 1];
        }
      }
      var e := inputs[0].event;
      var h := Step(address, w, inputs[0]);
      SessionDelivers(address, h.w, inputs[1..]);
      var rest := PairApi.Delivered(EventsOf(inputs[1..]));
      assert EventsOf(inputs) == [e] + EventsOf(inputs[1..]);
      assert ([e] + EventsOf(inputs[1..]))[0] == e && ([e] + EventsOf(inputs[1..]))[1..] == EventsOf(inputs[1..]);
      if PairApi.Subscribed(e) {
        assert PairApi.Delivered(EventsOf(inputs)) == [e] + rest;
        assert ([e] + rest)[0] == e && ([e] + rest)[1..] == rest;
      } else {
        assert PairApi.Delivered(EventsOf(inputs)) == rest;
      }
    }
  }

  /**
    Without expiries or cancellation, `perform()` ends as the engine's pairing
    flow ends, passes on exactly the devices the progress rule keeps from the
    engine's events, and notifies one error per event it drops.
  */
  lemma PerformFollowsEngine(address: Address, radioOn: bool, remote: PairApi.Remote, inputs: seq<Input>)
    requires OnlyBroadcasts(inputs)
    ensures var p := Perform(address, radioOn, remote, inputs);
            var e := PairEngine.Pair(radioOn, address, remote, EventsOf(inputs));
            p.ending == e.ending && p.devices == Kept(false, e.events)
            && Count(NotifyError(address), p.effects) == Dropped(false, e.events)
  {
    if PairApi.StartPairProcess(address, remote).events.Err? {
      RefusedFollowsEngine(address, radioOn, remote, inputs);
    } else {
      StartedFollowsEngine(address, radioOn, remote, inputs);
    }
  }

  predicate FollowsEngine(address: Address, radioOn: bool, remote: PairApi.Remote, inputs: seq<Input>) {
    var p := Perform(address, radioOn, remote, inputs);
    var e := PairEngine.Pair(radioOn, address, remote, EventsOf(inputs));
    p.ending == e.ending && p.devices == Kept(false, e.events)
    && Count(NotifyError(address), p.effects) == Dropped(false, e.events)
  }

  /** The power cycle and the start command make no error notification. */
  lemma LaunchNotifiesNothing(address: Address, radioOn: bool, remote: PairApi.Remote)
    ensures Count(NotifyError(address), ResetRadio(radioOn) + PairApi.StartPairProcess(address, remote).effects) == 0
  {
    var pre := ResetRadio(radioOn) + PairApi.StartPairProcess(address, remote).effects;
    assert forall i :: 0 <= i < |pre| ==> pre[i] != NotifyError(address);
    CountAbsent(NotifyError(address), pre);
  }

  lemma RefusedFollowsEngine(address: Address, radioOn: bool, remote: PairApi.Remote, inputs: seq<Input>)
    requires OnlyBroadcasts(inputs) && PairApi.StartPairProcess(address, remote).events.Err?
    ensures FollowsEngine(address, radioOn, remote, inputs)
  {
    var launch := PairApi.StartPairProcess(address, remote);
    var pre := ResetRadio(radioOn) + launch.effects;
    LaunchNotifiesNothing(address, radioOn, remote);
    var c := Close(Fresh(), Failed(launch.events.error));
    SessionDelivers(address, c.w, inputs);
    DeliverAllClosed(address, c.w, PairApi.Delivered(EventsOf(inputs)));
    var r := Session(address, c.w, inputs);
    assert r.effects == [] && r.devices == [];
    assert pre + c.effects + r.effects == pre;
  }

  lemma StartedFollowsEngine(address: Address, radioOn: bool, remote: PairApi.Remote, inputs: seq<Input>)
    requires OnlyBroadcasts(inputs) && PairApi.StartPairProcess(address, remote).events.Ok?
    ensures FollowsEngine(address, radioOn, remote, inputs)
  {
    var launch := PairApi.StartPairProcess(address, remote);
    var xs := launch.events.value + PairApi.Delivered(EventsOf(inputs));
    var pre := ResetRadio(radioOn) + launch.effects;
    var d := DeliverAll(address, Fresh(), xs);
    var f := PairApi.Feed(address, xs);
    assert PairEngine.Pair(radioOn, address, remote, EventsOf(inputs)).events == f.events
        && PairEngine.Pair(radioOn, address, remote, EventsOf(inputs)).ending == f.ending by {
      PairApi.OpenUnfold(address, launch, EventsOf(inputs));
    }
    assert Count(NotifyError(address), pre + d.effects) == Count(NotifyError(address), d.effects) by {
      LaunchNotifiesNothing(address, radioOn, remote);
      CountAppend(NotifyError(address), pre, d.effects);
    }
    PerformDelivers(address, radioOn, remote, inputs);
    DeliverAllFollowsFeed(address, Fresh(), xs);
  }

  /** Once pairing has started, `perform()` delivers the start events and the broadcasts as one stream. */
  lemma PerformDelivers(address: Address, radioOn: bool, remote: PairApi.Remote, inputs: seq<Input>)
    requires OnlyBroadcasts(inputs) && PairApi.StartPairProcess(address, remote).events.Ok?
    ensures var launch := PairApi.StartPairProcess(address, remote);
            var p := Perform(address, radioOn, remote, inputs);
            var d := DeliverAll(address, Fresh(), launch.events.value + PairApi.Delivered(EventsOf(inputs)));
            p.devices == d.kept && p.ending == d.w.ending && p.effects == ResetRadio(radioOn) + launch.effects + d.effects
  {
    var launch := PairApi.StartPairProcess(address, remote);
    var starts := launch.events.value;
    var incoming := PairApi.Delivered(EventsOf(inputs));
    var pre := ResetRadio(radioOn) + launch.effects;
    var first := DeliverAll(address, Fresh(), starts);
    SessionDelivers(address, first.w, inputs);
    DeliverAllAppend(address, Fresh(), starts, incoming);
    var r := Session(address, first.w, inputs);
    AppendAssoc(pre, first.effects, r.effects);
  }

  /** Sessions compose: running `pre + post` is running `pre`, then `post` from where it left off. */
  lemma {:induction false} SessionAppend(address: Address, w: Watch, pre: seq<Input>, post: seq<Input>)
    ensures var a := Session(address, w, pre);
            var b := Session(address, a.w, post);
            Session(address, w, pre + post) == Outcome(a.devices + b.devices, b.ending, a.effects + b.effects, b.w)
    decreases |pre|
  {
    if pre == [] {
      assert pre + post == post;
    } else {
      var xs := pre + post;
      assert xs[0] == pre[0] && xs[1..] == pre[1..] + post;
      var h := Step(address, w, pre[0]);
      SessionAppend(address, h.w, pre[1..], post);
      var a' := Session(address, h.w, pre[1..]);
      var b := Session(address, a'.w, post);
      AppendAssoc(h.kept, a'.devices, b.devices);
      AppendAssoc(h.effects, a'.effects, b.effects);
    }
  }

  /**
    After the flow has ended nothing is emitted and the ending stays; the
    only calls left are timeout notifications of operations still live.
  */
  lemma {:induction false} ClosedSession(address: Address, w: Watch, inputs: seq<Input>)
    requires w.ending != Pending
    ensures var r := Session(address, w, inputs);
            r.devices == [] && r.ending == w.ending && r.w.ending == w.ending
            && r.w.operation == w.operation && r.w.live <= w.live
            && (forall i :: 0 <= i < |r.effects| ==> r.effects[i] == NotifyTimeout(address))
            && (w.live == {} ==> r.effects == [])
    decreases |inputs|
  {
    if inputs != [] {
      var h := Step(address, w, inputs[0]);
      ClosedSession(address, h.w, inputs[1..]);
      var r := Session(address, h.w, inputs[1..]);
      assert Session(address, w, inputs).effects == h.effects + r.effects;
    }
  }

  /** Broadcasts never report a start, so inside a session no operation is armed. */
  lemma StepNeverArms(address: Address, w: Watch, input: Input)
    ensures var h := Step(address, w, input);
            Arms(h.effects) == 0 && h.w.armed == w.armed && h.w.operation == w.operation
  {
    var h := Step(address, w, input);
    if input.Broadcast? && PairApi.Subscribed(input.event) && w.ending == Pending {
      DeliverNeverArms(address, w, input.event);
    } else {
      NoArms(h.effects);
    }
  }

  /** Only a start report arms an operation. */
  lemma PairEventArmsOnlyOnStart(address: Address, w: Watch, ev: PairApi.PairEvent)
    requires ev.kind != PairApi.Started
    ensures Arms(OnPairEvent(address, w, ev).effects) == 0
  {
    var t := OnPairEvent(address, w, ev).effects;
    assert t == [] || t == [NotifyError(address)] || (w.operation.Some? && t == [ResetTime(w.operation.value)]);
    if t != [] {
      assert t[1..] == [];
    }
  }

  /** The start report comes only from the start command: no subscribed broadcast classifies as one. */
  lemma SubscribedNeverStarts(address: Address, x: RawEvent)
    requires PairApi.Subscribed(x)
    ensures forall i :: 0 <= i < |PairApi.Step(address, x).events| ==> PairApi.Step(address, x).events[i].kind != PairApi.Started
  {
    var a := PairApi.Step(address, x);
    if a.events != [] {
      assert x.action != PairingStarted;
      assert a.events == [PairApi.ExtractEvent(x).value];
    }
  }

  /** A subscribed broadcast is never a start report, so delivering it arms nothing. */
  lemma DeliverNeverArms(address: Address, w: Watch, x: RawEvent)
    requires PairApi.Subscribed(x) && w.ending == Pending
    ensures var h := Deliver(address, w, x);
            Arms(h.effects) == 0 && h.w.armed == w.armed && h.w.operation == w.operation
  {
    var a := PairApi.Step(address, x);
    var o := if a.events == [] then Handled(w, [], []) else OnPairEvent(address, w, a.events[0]);
    var c := if a.closed.Some? then Close(o.w, a.closed.value).effects else [];
    assert Deliver(address, w, x).effects == a.effects + o.effects + c;
    assert Arms(a.effects) == 0 && Arms(c) == 0 by {
      NoArms(a.effects);
      NoArms(c);
    }
    assert Arms(o.effects) == 0 by {
      if a.events != [] {
        SubscribedNeverStarts(address, x);
        PairEventArmsOnlyOnStart(address, w, a.events[0]);
      }
    }
    ArmsAppend(a.effects + o.effects, c);
    ArmsAppend(a.effects, o.effects);
  }

  lemma {:induction false} SessionNeverArms(address: Address, w: Watch, inputs: seq<Input>)
    ensures var r := Session(address, w, inputs);
            Arms(r.effects) == 0 && r.w.armed == w.armed && r.w.operation == w.operation
    decreases |inputs|
  {
    if inputs != [] {
      var h := Step(address, w, inputs[0]);
      StepNeverArms(address, w, inputs[0]);
      SessionNeverArms(address, h.w, inputs[1..]);
      ArmsAppend(h.effects, Session(address, h.w, inputs[1..]).effects);
    }
  }

  /** The start command's single event, delivered: it is `Deliver` on that event. */
  lemma DeliverOne(address: Address, w: Watch, x: RawEvent)
    ensures DeliverAll(address, w, [x]) == Deliver(address, w, x)
  {
    var h := Deliver(address, w, x);
    assert [x][1..] == [];
    assert h.kept + [] == h.kept && h.effects + [] == h.effects;
  }

  /** A target already bonded is reported once, with no pairing call and no timer, whatever follows. */
  lemma BondedTarget(address: Address, radioOn: bool, remote: PairApi.Remote, inputs: seq<Input>)
    requires remote.bondState == BOND_BONDED
    ensures var p := Perform(address, radioOn, remote, inputs);
            p.devices == [Handle(address)] && p.ending == Completed && p.effects == ResetRadio(radioOn)
  {
    var device := Handle(address);
    var x := RawEvent(BondStateChanged, Some(device), None, None, Some(BOND_BONDED));
    assert PairApi.StartPairProcess(address, remote).events == Ok([x]);
    DeliverOne(address, Fresh(), x);
    var a := PairApi.Step(address, x);
    assert a == PairApi.StepOut([PairApi.PairEvent(PairApi.Succeeded, device)], [], Some(Completed));
    var first := Deliver(address, Fresh(), x);
    assert first.kept == [device] && first.effects == [] && first.w.ending == Completed && first.w.live == {};
    ClosedSession(address, first.w, inputs);
  }

  /** The start report, delivered to a fresh request, arms operation 0 and nothing else. */
  lemma StartArmsFirstOperation(address: Address)
    ensures var first := DeliverAll(address, Fresh(), [DeviceEvent(PairingStarted, Handle(address))]);
            first.effects == [CountForSeconds(0, PAIR_SECONDS)] && first.w.operation == Some(0)
  {
    var x := DeviceEvent(PairingStarted, Handle(address));
    DeliverOne(address, Fresh(), x);
    assert PairApi.Step(address, x) == PairApi.StepOut([PairApi.PairEvent(PairApi.Started, Handle(address))], [], None);
  }

  /** An accepted pairing call arms one 20-second operation, right after the call, and no other. */
  lemma PairingStartArmsOnce(address: Address, radioOn: bool, remote: PairApi.Remote, inputs: seq<Input>)
    requires remote.bondState != BOND_BONDED && remote.pairAccepted
    ensures var p := Perform(address, radioOn, remote, inputs);
            var k := |ResetRadio(radioOn)|;
            k + 1 < |p.effects| && p.effects[k] == PairCall(Handle(address))
            && p.effects[k + 1] == CountForSeconds(0, PAIR_SECONDS)
            && Arms(p.effects) == 1 && p.w.operation == Some(0)
  {
    var device := Handle(address);
    var reset := ResetRadio(radioOn);
    var first := DeliverAll(address, Fresh(), [DeviceEvent(PairingStarted, device)]);
    StartArmsFirstOperation(address);
    var r := Session(address, first.w, inputs);
    SessionNeverArms(address, first.w, inputs);
    var pre := reset + [PairCall(device)];
    assert Perform(address, radioOn, remote, inputs).effects == pre + first.effects + r.effects;
    NoArms(pre);
    ArmsAppend(pre, first.effects);
    ArmsAppend(pre + first.effects, r.effects);
    var all := pre + first.effects + r.effects;
    assert all[|reset| + 1] == CountForSeconds(0, PAIR_SECONDS);
  }

  /** When the flow ends, the stored operation is cancelled and can no longer fire. */
  lemma {:induction false} CompletionCancelsTimer(address: Address, w: Watch, inputs: seq<Input>)
    requires w.ending == Pending
    ensures var r := Session(address, w, inputs);
            r.ending != Pending && r.w.operation.Some? ==>
              TimerCancel(r.w.operation.value) in r.effects && r.w.operation.value !in r.w.live
    decreases |inputs|
  {
    if inputs != [] {
      var h := Step(address, w, inputs[0]);
      var r := Session(address, h.w, inputs[1..]);
      assert Session(address, w, inputs).effects == h.effects + r.effects;
      if h.w.ending == Pending {
        CompletionCancelsTimer(address, h.w, inputs[1..]);
      } else {
        ClosedSession(address, h.w, inputs[1..]);
        if h.w.operation.Some? {
          assert TimerCancel(h.w.operation.value) in h.effects;
          assert h.w.operation.value !in h.w.live;
        }
      }
    }
  }

  lemma SessionOne(address: Address, w: Watch, input: Input)
    ensures var h := Step(address, w, input);
            Session(address, w, [input]) == Outcome(h.kept, h.w.ending, h.effects, h.w)
  {
    var h := Step(address, w, input);
    assert [input][1..] == [];
    assert h.kept + [] == h.kept && h.effects + [] == h.effects;
  }

  /** The ending a session reports is the one its final state records. */
  lemma {:induction false} EndingIsRecorded(address: Address, w: Watch, inputs: seq<Input>)
    ensures Session(address, w, inputs).ending == Session(address, w, inputs).w.ending
    decreases |inputs|
  {
    if inputs != [] {
      EndingIsRecorded(address, Step(address, w, inputs[0]).w, inputs[1..]);
    }
  }

  /** The expiry of a live operation, then the broadcast its notification produces. */
  lemma TimeoutRoundTrip(address: Address, w: Watch, id: nat)
    requires w.ending == Pending && id in w.live
    ensures var m := Session(address, w, [Expire(id), Broadcast(PairEngine.NotifyTimeout(address))]);
            m.ending == Failed(DevicePairingTimeout) && m.w.ending == Failed(DevicePairingTimeout)
            && NotifyTimeout(address) in m.effects && CancelPairRequest in m.effects
  {
    var t := PairEngine.NotifyTimeout(address);
    var mid := [Expire(id), Broadcast(t)];
    var h1 := Step(address, w, Expire(id));
    assert h1.effects == [NotifyTimeout(address)];
    var a := PairApi.Step(address, t);
    assert a == PairApi.StepOut([], [CancelPairRequest], Some(Failed(DevicePairingTimeout)));
    var h2 := Step(address, h1.w, Broadcast(t));
    assert h2.w.ending == Failed(DevicePairingTimeout);
    assert CancelPairRequest in h2.effects;
    assert mid[1..] == [Broadcast(t)] && mid[1..][1..] == [];
    SessionOne(address, h1.w, Broadcast(t));
    var tail := Session(address, h1.w, [Broadcast(t)]);
    assert Session(address, w, mid) == Outcome(h1.kept + tail.devices, tail.ending, h1.effects + tail.effects, tail.w);
  }

  /**
    A live operation that reaches its deadline sends the timeout notification,
    and the broadcast it produces fails the open flow with a pairing timeout.
  */
  lemma TimeoutFailsPairing(address: Address, w: Watch, pre: seq<Input>, id: nat, post: seq<Input>)
    requires Session(address, w, pre).ending == Pending
    requires id in Session(address, w, pre).w.live
    ensures var r := Session(address, w, pre + [Expire(id), Broadcast(PairEngine.NotifyTimeout(address))] + post);
            r.ending == Failed(DevicePairingTimeout)
            && NotifyTimeout(address) in r.effects && CancelPairRequest in r.effects
  {
    var a := Session(address, w, pre);
    var mid := [Expire(id), Broadcast(PairEngine.NotifyTimeout(address))];
    AppendAssoc(pre, mid, post);
    EndingIsRecorded(address, w, pre);
    SessionAppend(address, w, pre, mid + post);
    SessionAppend(address, a.w, mid, post);
    TimeoutRoundTrip(address, a.w, id);
    var m := Session(address, a.w, mid);
    ClosedSession(address, m.w, post);
    var b := Session(address, m.w, post);
    var rest := Session(address, a.w, mid + post);
    assert rest.ending == Failed(DevicePairingTimeout);
    assert rest.effects == m.effects + b.effects;
    assert NotifyTimeout(address) in rest.effects && CancelPairRequest in rest.effects;
  }
}
