/**
  `PairApi`: bonding with one remote device. The start command either
  reports an existing bond or asks the pairing system to pair; the bridge
  then delivers bond, connection and pairing broadcasts until one reports
  the target bonded. Broadcasts for other addresses are dropped, error
  broadcasts fail the flow, and the rest are classified into pair events.
*/
module PairApi {
  import opened Common
  import opened Events
  import opened Bridge

  /** `PairEvent.event`: one of the four pairing outcomes the API reports. */
  datatype Kind = Succeeded | NotDone | Started | OnProgress

  /** `PairEvent(event, device)`. */
  datatype PairEvent = PairEvent(kind: Kind, device: Handle)

  /**
    What the platform says about the target: its bond state as
    `getRemoteDevice(address)` reports it, and whether `PairingSystem.pair`
    returns normally (`false`: it throws `DevicePairingFailed`).
  */
  datatype Remote = Remote(bondState: int, pairAccepted: bool)

  /** The actions `pair()` registers the bridge for. */
  predicate Subscribed(e: RawEvent) {
    e.action in {BondStateChanged, AclConnected, AclDisconnected, PairingRequest, PairingFailed, PairingTimeout}
  }

  /** The broadcasts that reach the bridge, in arrival order. */
  function Delivered(incoming: seq<RawEvent>): (r: seq<RawEvent>)
    ensures |r| <= |incoming|
    ensures forall i :: 0 <= i < |r| ==> Subscribed(r[i])
    decreases |incoming|
  {
    if incoming == [] then []
    else (if Subscribed(incoming[0]) then [incoming[0]] else []) + Delivered(incoming[1..])
  }

  /** `sendTimeoutMessage(address)`: the loopback broadcast a timed-out request sends. */
  function TimeoutMessage(address: Address): (e: RawEvent)
    ensures Subscribed(e) && e.device == Some(Handle(address)) && BondStateOf(e) != BOND_BONDED
  {
    DeviceEvent(PairingTimeout, Handle(address))
  }

  /** `sendErrorMessage(address)`: the loopback broadcast of a pairing the user abandoned. */
  function ErrorMessage(address: Address): (e: RawEvent)
    ensures Subscribed(e) && e.device == Some(Handle(address)) && BondStateOf(e) != BOND_BONDED
  {
    DeviceEvent(PairingFailed, Handle(address))
  }

  datatype Launch = Launch(events: Result<seq<RawEvent>, Failure>, effects: seq<Effect>)

  /**
    `startPairProcess(address)`: a bonded target yields one synthetic bonded
    event and no pairing call; otherwise `pair` is called once and either a
    synthetic pairing-started event follows or the start fails.
  */
  function StartPairProcess(address: Address, remote: Remote): (r: Launch)
    ensures remote.bondState == BOND_BONDED ==>
              r.effects == [] && r.events.Ok? && |r.events.value| == 1
              && IsPairCompleted(address, r.events.value[0])
    ensures remote.bondState != BOND_BONDED ==> r.effects == [PairCall(Handle(address))]
    ensures remote.bondState != BOND_BONDED && remote.pairAccepted ==>
              r.events == Ok([DeviceEvent(PairingStarted, Handle(address))])
    ensures remote.bondState != BOND_BONDED && !remote.pairAccepted ==>
              r.events == Err(DevicePairingFailed)
  {
    var device := Handle(address);
    if remote.bondState == BOND_BONDED then
      Launch(Ok([RawEvent(BondStateChanged, Some(device), None, None, Some(BOND_BONDED))]), [])
    else if remote.pairAccepted then
      Launch(Ok([DeviceEvent(PairingStarted, device)]), [PairCall(device)])
    else
      Launch(Err(DevicePairingFailed), [PairCall(device)])
  }

  /** `detectPairCompleted(address)`: the target reported bonded, whatever the action. */
  predicate IsPairCompleted(address: Address, e: RawEvent) {
    e.device.Some? && e.device.value.address == address && BondStateOf(e) == BOND_BONDED
  }

  /** `onlyEventsForThisDevice(address)`. */
  predicate ForTarget(address: Address, e: RawEvent) {
    e.device.Some? && e.device.value.address == address
  }

  datatype Checked = Checked(out: Result<RawEvent, Failure>, effects: seq<Effect>)

  /** `detectError()`: failures and disconnections throw; a timeout first cancels the system's pair request. */
  function DetectError(e: RawEvent): (r: Checked)
    ensures r.out.Err? <==> e.action in {PairingFailed, AclDisconnected, PairingTimeout}
    ensures r.out.Err? && e.action == PairingTimeout ==> r.out.error == DevicePairingTimeout
    ensures r.out.Err? && e.action != PairingTimeout ==> r.out.error == DevicePairingFailed
    ensures r.out.Ok? ==> r.out.value == e
    ensures r.effects == (if e.action == PairingTimeout then [CancelPairRequest] else [])
  {
    if e.action == PairingFailed || e.action == AclDisconnected then Checked(Err(DevicePairingFailed), [])
    else if e.action == PairingTimeout then Checked(Err(DevicePairingTimeout), [CancelPairRequest])
    else Checked(Ok(e), [])
  }

  /** `extractEvent()`: the classification table; any other broadcast is dropped. */
  function ExtractEvent(e: RawEvent): (r: Option<PairEvent>)
    requires e.device.Some?
    ensures r.Some? ==> r.value.device == e.device.value
    ensures r == Some(PairEvent(Succeeded, e.device.value))
            <==> e.action == BondStateChanged && BondStateOf(e) == BOND_BONDED
    ensures r == Some(PairEvent(NotDone, e.device.value))
            <==> e.action == BondStateChanged && BondStateOf(e) == BOND_NONE
    ensures r == Some(PairEvent(Started, e.device.value)) <==> e.action == PairingStarted
    ensures r == Some(PairEvent(OnProgress, e.device.value)) <==> e.action in {PairingRequest, AclConnected}
  {
    var state := BondStateOf(e);
    if e.action == BondStateChanged && state == BOND_BONDED then Some(PairEvent(Succeeded, e.device.value))
    else if e.action == BondStateChanged && state == BOND_NONE then Some(PairEvent(NotDone, e.device.value))
    else if e.action == PairingStarted then Some(PairEvent(Started, e.device.value))
    else if e.action == PairingRequest || e.action == AclConnected then Some(PairEvent(OnProgress, e.device.value))
    else None
  }

  function AsSeq<T>(o: Option<T>): (r: seq<T>)
    ensures |r| <= 1 && (r == [] <==> o.None?) && (o.Some? ==> r == [o.value])
  {
    if o.Some? then [o.value] else []
  }

  // ---------------------------------------------------------------------
  // The flow, one delivered event at a time.

  datatype StepOut = StepOut(events: seq<PairEvent>, effects: seq<Effect>, closed: Option<Ending>)

  /** One event reaching the open flow: exit check, address filter, error check, classification. */
  function Step(address: Address, e: RawEvent): (o: StepOut)
    ensures |o.events| <= 1
    ensures forall i :: 0 <= i < |o.events| ==> o.events[i].device == Handle(address)
    ensures !ForTarget(address, e) ==> o == StepOut([], [], None)
    ensures o.closed.Some? ==> o.closed.value != Pending && o.closed.value != Cancelled
    ensures o.closed == Some(Completed) <==> IsPairCompleted(address, e) && DetectError(e).out.Ok?
  {
    if !ForTarget(address, e) then StepOut([], [], None)
    else
      var c := DetectError(e);
      match c.out
      case Err(f) => StepOut([], c.effects, Some(Failed(f)))
      case Ok(_) =>
        StepOut(AsSeq(ExtractEvent(e)), c.effects, if IsPairCompleted(address, e) then Some(Completed) else None)
  }

  /** The events, ending and calls of a pairing flow. */
  datatype Run = Run(events: seq<PairEvent>, ending: Ending, effects: seq<Effect>)

  /** The open flow over delivered events; nothing happens after it closes. */
  function Feed(address: Address, xs: seq<RawEvent>): (r: Run)
    ensures r.ending != Cancelled
    decreases |xs|
  {
    if xs == [] then Run([], Pending, [])
    else
      var o := Step(address, xs[0]);
      if o.closed.Some? then Run(o.events, o.closed.value, o.effects)
      else
        var r := Feed(address, xs[1..]);
        Run(o.events + r.events, r.ending, o.effects + r.effects)
  }

  /** The flow once the start command has run: its events first, then the delivered broadcasts. */
  function Open(address: Address, launch: Launch, incoming: seq<RawEvent>): (r: Run)
    ensures r.ending != Cancelled
  {
    match launch.events
    case Err(f) => Run([], Failed(f), launch.effects)
    case Ok(starts) =>
      var r := Feed(address, starts + Delivered(incoming));
      Run(r.events, r.ending, launch.effects + r.effects)
  }

  /** `pair(address)` over the broadcasts that arrive while it runs. */
  function Pair(address: Address, remote: Remote, incoming: seq<RawEvent>): (r: Run)
    ensures r.ending != Cancelled
    ensures remote.bondState == BOND_BONDED ==> r == Run([PairEvent(Succeeded, Handle(address))], Completed, [])
    ensures remote.bondState != BOND_BONDED ==> |r.effects| >= 1 && r.effects[0] == PairCall(Handle(address))
    ensures remote.bondState != BOND_BONDED && !remote.pairAccepted ==>
              r == Run([], Failed(DevicePairingFailed), [PairCall(Handle(address))])
  {
    Open(address, StartPairProcess(address, remote), incoming)
  }

  // ---------------------------------------------------------------------
  // The same flow as the source composes it.

  /** `.filter(onlyEventsForThisDevice).map(detectError()).map(extractEvent()).filterNotNull()`. */
  function Process(address: Address, items: seq<RawEvent>, ending: Ending): (r: Run)
    decreases |items|
  {
    if items == [] then Run([], ending, [])
    else if !ForTarget(address, items[0]) then Process(address, items[1..], ending)
    else
      var c := DetectError(items[0]);
      match c.out
      case Err(f) => Run([], Failed(f), c.effects)
      case Ok(e) =>
        var r := Process(address, items[1..], ending);
        Run(AsSeq(ExtractEvent(e)) + r.events, r.ending, c.effects + r.effects)
  }

  /** The bridge, with the exit event emitted, followed by the operator chain. */
  function Pipeline(address: Address, remote: Remote, incoming: seq<RawEvent>): Run {
    var launch := StartPairProcess(address, remote);
    var bridged := Listen(launch.events, Delivered(incoming), e => IsPairCompleted(address, e), true);
    var r := Process(address, bridged.items, bridged.ending);
    r.(effects := launch.effects + r.effects)
  }

  lemma {:induction false} FeedIsScan(address: Address, xs: seq<RawEvent>)
    ensures var bridged := Scan(xs, e => IsPairCompleted(address, e), true);
            Feed(address, xs) == Process(address, bridged.items, bridged.ending)
    decreases |xs|
  {
    var exit := e => IsPairCompleted(address, e);
    if xs != [] {
      var b := Scan(xs, exit, true);
      if exit(xs[0]) {
        assert b == Stream([xs[0]], Completed);
        assert b.items[1..] == [];
      } else {
        var tail := Scan(xs[1..], exit, true);
        assert b.items == [xs[0]] + tail.items;
        assert b.items[0] == xs[0] && b.items[1..] == tail.items;
        FeedIsScan(address, xs[1..]);
      }
    }
  }

  /** The step-by-step flow is the composed flow. */
  lemma PairIsPipeline(address: Address, remote: Remote, incoming: seq<RawEvent>)
    ensures Pair(address, remote, incoming) == Pipeline(address, remote, incoming)
  {
    var launch := StartPairProcess(address, remote);
    if launch.events.Ok? {
      FeedIsScan(address, launch.events.value + Delivered(incoming));
    }
  }

  // ---------------------------------------------------------------------
  // Properties of a pairing flow.

  lemma {:induction false} DeliveredAppend(a: seq<RawEvent>, b: seq<RawEvent>)
    ensures Delivered(a + b) == Delivered(a) + Delivered(b)
    decreases |a|
  {
    if a == [] {
      assert a + b == b;
    } else {
      assert (a + b)[0] == a[0] && (a + b)[1..] == a[1..] + b;
      DeliveredAppend(a[1..], b);
    }
  }

  /** Flows compose: while the flow is open, `pre + post` is `pre`, then `post`. */
  lemma {:induction false} FeedAppend(address: Address, pre: seq<RawEvent>, post: seq<RawEvent>)
    requires Feed(address, pre).ending == Pending
    ensures var a := Feed(address, pre);
            var b := Feed(address, post);
            Feed(address, pre + post) == Run(a.events + b.events, b.ending, a.effects + b.effects)
    decreases |pre|
  {
    var b := Feed(address, post);
    if pre == [] {
      assert pre + post == post;
      assert [] + b.events == b.events && [] + b.effects == b.effects;
    } else {
      var xs := pre + post;
      assert xs[0] == pre[0] && xs[1..] == pre[1..] + post;
      var o := Step(address, pre[0]);
      FeedAppend(address, pre[1..], post);
      var a' := Feed(address, pre[1..]);
      AppendAssoc(o.events, a'.events, b.events);
      AppendAssoc(o.effects, a'.effects, b.effects);
    }
  }

  /** `Open` after a successful start is the flow over the start events and the delivered broadcasts. */
  lemma OpenUnfold(address: Address, launch: Launch, incoming: seq<RawEvent>)
    requires launch.events.Ok?
    ensures var f := Feed(address, launch.events.value + Delivered(incoming));
            Open(address, launch, incoming) == Run(f.events, f.ending, launch.effects + f.effects)
  {
  }

  lemma OpenFeedAppend(address: Address, starts: seq<RawEvent>, pre: seq<RawEvent>, post: seq<RawEvent>)
    requires Feed(address, starts + Delivered(pre)).ending == Pending
    ensures var a := Feed(address, starts + Delivered(pre));
            var b := Feed(address, Delivered(post));
            Feed(address, starts + Delivered(pre + post)) == Run(a.events + b.events, b.ending, a.effects + b.effects)
  {
    DeliveredAppend(pre, post);
    AppendAssoc(starts, Delivered(pre), Delivered(post));
    FeedAppend(address, starts + Delivered(pre), Delivered(post));
  }

  lemma OpenAppend(address: Address, launch: Launch, pre: seq<RawEvent>, post: seq<RawEvent>)
    requires Open(address, launch, pre).ending == Pending
    ensures var a := Open(address, launch, pre);
            var b := Feed(address, Delivered(post));
            Open(address, launch, pre + post) == Run(a.events + b.events, b.ending, a.effects + b.effects)
  {
    var starts := launch.events.value;
    OpenUnfold(address, launch, pre);
    OpenUnfold(address, launch, pre + post);
    OpenFeedAppend(address, starts, pre, post);
    var a := Feed(address, starts + Delivered(pre));
    var b := Feed(address, Delivered(post));
    AppendAssoc(launch.effects, a.effects, b.effects);
  }

  /** While `pair()` is open, later broadcasts continue the same flow. */
  lemma PairAppend(address: Address, remote: Remote, pre: seq<RawEvent>, post: seq<RawEvent>)
    requires Pair(address, remote, pre).ending == Pending
    ensures var a := Pair(address, remote, pre);
            var b := Feed(address, Delivered(post));
            Pair(address, remote, pre + post) == Run(a.events + b.events, b.ending, a.effects + b.effects)
  {
    OpenAppend(address, StartPairProcess(address, remote), pre, post);
  }

  /** The pairing system is asked to cancel exactly when the flow fails on a timeout, and never otherwise. */
  lemma {:induction false} CancelsOnlyOnTimeout(address: Address, xs: seq<RawEvent>)
    ensures Feed(address, xs).effects
         == (if Feed(address, xs).ending == Failed(DevicePairingTimeout) then [CancelPairRequest] else [])
    decreases |xs|
  {
    if xs != [] {
      var o := Step(address, xs[0]);
      if o.closed.None? {
        CancelsOnlyOnTimeout(address, xs[1..]);
        assert o.effects == [];
      }
    }
  }

  /** Every event the flow emits concerns the target. */
  lemma {:induction false} EmitsOnlyTarget(address: Address, xs: seq<RawEvent>)
    ensures forall i :: 0 <= i < |Feed(address, xs).events| ==> Feed(address, xs).events[i].device == Handle(address)
    decreases |xs|
  {
    if xs != [] {
      var o := Step(address, xs[0]);
      if o.closed.None? {
        EmitsOnlyTarget(address, xs[1..]);
        var r := Feed(address, xs[1..]);
        assert Feed(address, xs).events == o.events + r.events;
      }
    }
  }

  /** A broadcast about another device changes nothing, wherever it arrives. */
  lemma {:induction false} FeedIgnoresOthers(address: Address, pre: seq<RawEvent>, e: RawEvent, post: seq<RawEvent>)
    requires !ForTarget(address, e)
    ensures Feed(address, pre + [e] + post) == Feed(address, pre + post)
    decreases |pre|
  {
    if pre == [] {
      assert pre + [e] + post == [e] + post && ([e] + post)[1..] == post;
      assert pre + post == post;
    } else {
      assert (pre + [e] + post)[0] == pre[0] && (pre + [e] + post)[1..] == pre[1..] + [e] + post;
      assert (pre + post)[0] == pre[0] && (pre + post)[1..] == pre[1..] + post;
      FeedIgnoresOthers(address, pre[1..], e, post);
    }
  }

  lemma DeliveredIgnoresOthers(address: Address, starts: seq<RawEvent>, pre: seq<RawEvent>, e: RawEvent, post: seq<RawEvent>)
    requires !ForTarget(address, e)
    ensures Feed(address, starts + Delivered(pre + [e] + post)) == Feed(address, starts + Delivered(pre + post))
  {
    var dp, de, dq := Delivered(pre), Delivered([e]), Delivered(post);
    DeliveredAppend(pre + [e], post);
    DeliveredAppend(pre, [e]);
    DeliveredAppend(pre, post);
    AppendAssoc(starts, dp + de, dq);
    AppendAssoc(starts, dp, de);
    AppendAssoc(starts, dp, dq);
    assert [e][1..] == [];
    if Subscribed(e) {
      assert de == [e];
      FeedIgnoresOthers(address, starts + dp, e, dq);
    } else {
      assert de == [];
      assert starts + dp + de == starts + dp;
    }
  }

  /** `pair()` drops broadcasts for other addresses before any check. */
  lemma PairIgnoresOthers(address: Address, remote: Remote, pre: seq<RawEvent>, e: RawEvent, post: seq<RawEvent>)
    requires !ForTarget(address, e)
    ensures Pair(address, remote, pre + [e] + post) == Pair(address, remote, pre + post)
  {
    var launch := StartPairProcess(address, remote);
    if launch.events.Ok? {
      OpenUnfold(address, launch, pre + [e] + post);
      OpenUnfold(address, launch, pre + post);
      DeliveredIgnoresOthers(address, launch.events.value, pre, e, post);
    }
  }

  /** An already bonded target succeeds at once, without a pairing call. */
  lemma AlreadyBonded(address: Address, remote: Remote, incoming: seq<RawEvent>)
    requires remote.bondState == BOND_BONDED
    ensures Pair(address, remote, incoming) == Run([PairEvent(Succeeded, Handle(address))], Completed, [])
  {
    var e := StartPairProcess(address, remote).events.value[0];
    assert ([e] + Delivered(incoming))[0] == e;
  }

  /** A pairing call that throws fails the flow before any event. */
  lemma PairCallFails(address: Address, remote: Remote, incoming: seq<RawEvent>)
    requires remote.bondState != BOND_BONDED && !remote.pairAccepted
    ensures Pair(address, remote, incoming) == Run([], Failed(DevicePairingFailed), [PairCall(Handle(address))])
  {
  }

  /** An accepted pairing call is made once and reported first as started. */
  lemma StartedFirst(address: Address, remote: Remote, incoming: seq<RawEvent>)
    requires remote.bondState != BOND_BONDED && remote.pairAccepted
    ensures var r := Pair(address, remote, incoming);
            |r.events| >= 1 && r.events[0] == PairEvent(Started, Handle(address))
            && |r.effects| >= 1 && r.effects[0] == PairCall(Handle(address))
            && Count(PairCall(Handle(address)), r.effects) == 1
  {
    var launch := StartPairProcess(address, remote);
    OpenUnfold(address, launch, incoming);
    var s := DeviceEvent(PairingStarted, Handle(address));
    var xs := [s] + Delivered(incoming);
    assert xs[0] == s && xs[1..] == Delivered(incoming);
    var rest := Feed(address, Delivered(incoming));
    assert Feed(address, xs).events == [PairEvent(Started, Handle(address))] + rest.events;
    assert Feed(address, xs).effects == [] + rest.effects == rest.effects;
    CancelsOnlyOnTimeout(address, Delivered(incoming));
    CountAbsent(PairCall(Handle(address)), rest.effects);
    CountAppend(PairCall(Handle(address)), [PairCall(Handle(address))], rest.effects);
  }

  /** A bond report for the target, while the flow is open, completes it with one success event. */
  lemma BondedBroadcastSucceeds(address: Address, remote: Remote, pre: seq<RawEvent>, e: RawEvent, post: seq<RawEvent>)
    requires Pair(address, remote, pre).ending == Pending
    requires e.action == BondStateChanged && IsPairCompleted(address, e)
    ensures var a := Pair(address, remote, pre);
            Pair(address, remote, pre + [e] + post)
              == Run(a.events + [PairEvent(Succeeded, Handle(address))], Completed, a.effects)
  {
    PairAppend(address, remote, pre, [e] + post);
    assert pre + [e] + post == pre + ([e] + post);
    DeliveredAppend([e], post);
    assert Delivered([e]) == [e];
    assert ([e] + Delivered(post))[0] == e;
  }

  /** A failure or disconnection of the target, while the flow is open, fails it with nothing emitted. */
  lemma ErrorBroadcastFails(address: Address, remote: Remote, pre: seq<RawEvent>, e: RawEvent, post: seq<RawEvent>)
    requires Pair(address, remote, pre).ending == Pending
    requires ForTarget(address, e) && (e.action == PairingFailed || e.action == AclDisconnected)
    ensures var a := Pair(address, remote, pre);
            Pair(address, remote, pre + [e] + post) == Run(a.events, Failed(DevicePairingFailed), a.effects)
  {
    PairAppend(address, remote, pre, [e] + post);
    assert pre + [e] + post == pre + ([e] + post);
    DeliveredAppend([e], post);
    assert Delivered([e]) == [e];
    assert ([e] + Delivered(post))[0] == e;
    var a := Pair(address, remote, pre);
    assert a.events + [] == a.events;
  }

  /** A timeout of the target, while the flow is open, cancels the system's request and fails the flow. */
  lemma TimeoutBroadcastFails(address: Address, remote: Remote, pre: seq<RawEvent>, e: RawEvent, post: seq<RawEvent>)
    requires Pair(address, remote, pre).ending == Pending
    requires ForTarget(address, e) && e.action == PairingTimeout
    ensures var a := Pair(address, remote, pre);
            Pair(address, remote, pre + [e] + post)
              == Run(a.events, Failed(DevicePairingTimeout), a.effects + [CancelPairRequest])
  {
    PairAppend(address, remote, pre, [e] + post);
    assert pre + [e] + post == pre + ([e] + post);
    DeliveredAppend([e], post);
    assert Delivered([e]) == [e];
    assert ([e] + Delivered(post))[0] == e;
    var a := Pair(address, remote, pre);
    assert a.events + [] == a.events;
  }

  /** `pair()` calls the pairing system only to pair (at the start) or to cancel (on a timeout). */
  lemma PairCalls(address: Address, remote: Remote, incoming: seq<RawEvent>)
    ensures var r := Pair(address, remote, incoming);
            forall i :: 0 <= i < |r.effects| ==> r.effects[i] == PairCall(Handle(address)) || r.effects[i] == CancelPairRequest
  {
    var launch := StartPairProcess(address, remote);
    if launch.events.Ok? {
      OpenUnfold(address, launch, incoming);
      CancelsOnlyOnTimeout(address, launch.events.value + Delivered(incoming));
    }
  }

  /** The flow completes only on an event that reports the target bonded. */
  lemma {:induction false} CompletesOnlyOnBondReport(address: Address, xs: seq<RawEvent>)
    requires Feed(address, xs).ending == Completed
    ensures exists i :: 0 <= i < |xs| && IsPairCompleted(address, xs[i])
    decreases |xs|
  {
    var o := Step(address, xs[0]);
    if o.closed.None? {
      CompletesOnlyOnBondReport(address, xs[1..]);
      var i :| 0 <= i < |xs[1..]| && IsPairCompleted(address, xs[1..][i]);
      assert xs[i + 1] == xs[1..][i];
    }
  }

  /** `pair()` completes only for a target already bonded, or on a delivered bond report for it. */
  lemma PairCompletesOnlyOnBond(address: Address, remote: Remote, incoming: seq<RawEvent>)
    requires Pair(address, remote, incoming).ending == Completed
    ensures remote.bondState == BOND_BONDED
            || exists i :: 0 <= i < |incoming| && IsPairCompleted(address, incoming[i]) && Subscribed(incoming[i])
  {
    var launch := StartPairProcess(address, remote);
    if remote.bondState != BOND_BONDED {
      OpenUnfold(address, launch, incoming);
      var xs := launch.events.value + Delivered(incoming);
      CompletesOnlyOnBondReport(address, xs);
      var i :| 0 <= i < |xs| && IsPairCompleted(address, xs[i]);
      assert i >= 1;
      DeliveredMember(incoming, i - 1);
    }
  }

  lemma {:induction false} DeliveredMember(incoming: seq<RawEvent>, k: nat)
    requires k < |Delivered(incoming)|
    ensures exists i :: 0 <= i < |incoming| && incoming[i] == Delivered(incoming)[k]
    decreases |incoming|
  {
    var head := if Subscribed(incoming[0]) then [incoming[0]] else [];
    assert Delivered(incoming) == head + Delivered(incoming[1..]);
    if head != [] && k == 0 {
      assert incoming[0] == Delivered(incoming)[0];
    } else {
      var k' := k - |head|;
      assert Delivered(incoming)[k] == Delivered(incoming[1..])[k'];
      DeliveredMember(incoming[1..], k');
      var i :| 0 <= i < |incoming[1..]| && incoming[1..][i] == Delivered(incoming[1..])[k'];
      assert incoming[i + 1] == incoming[1..][i];
    }
  }
}
