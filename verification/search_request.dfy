/**
  `SearchRequest`: the public discovery object. It filters the found
  devices, keeps an ordered list of them keyed by address, and arms a
  30-second operation whenever discovery starts; the operation's expiry
  stops the engine. A session is driven by broadcasts interleaved with the
  expiry of armed operations and with calls of `stop()`.
*/
module SearchRequest {
  import opened Common
  import opened Events
  import opened Devices
  import SearchApi
  import SearchEngine

  const SEARCH_SECONDS: int := 30

  // ---------------------------------------------------------------------
  // Filters.

  /** The Builder's settings: `filterByPrefix(prefix)` and `filterBySignal(signal)`. */
  datatype Filters = Filters(prefix: Option<string>, signal: Short)

  /** A Builder on which no setter was called. */
  function DefaultFilters(): (f: Filters)
    ensures forall d: Device :: Accepts(f, d)
  {
    Filters(None, 0)
  }

  function WithPrefix(f: Filters, prefix: Option<string>): (r: Filters)
    ensures r.prefix == prefix && r.signal == f.signal
  {
    f.(prefix := prefix)
  }

  function WithSignal(f: Filters, signal: Short): (r: Filters)
    ensures r.signal == signal && r.prefix == f.prefix
  {
    f.(signal := signal)
  }

  /** The value compared with the threshold: a negative reading `s` counts as `100 + s`. */
  function Normalise(signal: Short): (n: Short)
    ensures signal < 0 ==> n == 100 + signal && -32668 <= n < 100
    ensures signal >= 0 ==> n == signal
  {
    ToShort(if signal < 0 then 100 + signal else signal)
  }

  /** `filterBySignalStrength`: a threshold of zero or less accepts everything. */
  predicate PassesSignal(f: Filters, d: Device) {
    f.signal > 0 ==> Normalise(d.signal) > f.signal
  }

  /** `filterByPrefix`: a case-sensitive `startsWith`; no prefix accepts everything. */
  predicate PassesPrefix(f: Filters, d: Device) {
    f.prefix.Some? ==> f.prefix.value <= d.name
  }

  /** `discardByFilter()`: both filters must accept. */
  predicate Accepts(f: Filters, d: Device) {
    PassesPrefix(f, d) && PassesSignal(f, d)
  }

  /** The devices of `ds` a filter setting keeps, in order. */
  function Keep(f: Filters, ds: seq<Device>): (r: seq<Device>)
    ensures |r| <= |ds|
    ensures forall d :: d in r <==> d in ds && Accepts(f, d)
  {
    if ds == [] then []
    else (if Accepts(f, ds[0]) then [ds[0]] else []) + Keep(f, ds[1..])
  }

  /** Filtering with both settings is filtering by signal, then by prefix. */
  lemma {:induction false} FiltersCompose(prefix: Option<string>, signal: Short, ds: seq<Device>)
    ensures Keep(Filters(prefix, signal), ds)
         == Keep(Filters(prefix, 0), Keep(Filters(None, signal), ds))
    decreases |ds|
  {
    if ds != [] {
      FiltersCompose(prefix, signal, ds[1..]);
      var head := if PassesSignal(Filters(None, signal), ds[0]) then [ds[0]] else [];
      var inner := Keep(Filters(None, signal), ds[1..]);
      assert Keep(Filters(None, signal), ds) == head + inner;
      if head == [] {
        assert head + inner == inner;
      } else {
        assert (head + inner)[0] == ds[0] && (head + inner)[1..] == inner;
      }
    }
  }

  // ---------------------------------------------------------------------
  // The device list.

  /** `indexOfFirst { it.details.address == address }`, -1 when there is none. */
  function IndexOf(list: seq<Device>, address: Address): (r: int)
    ensures -1 <= r < |list|
    ensures r >= 0 ==> list[r].details.address == address
    ensures forall j :: 0 <= j < |list| && (r == -1 || j < r) ==> list[j].details.address != address
    decreases |list|
  {
    if list == [] then -1
    else if list[0].details.address == address then 0
    else
      var k := IndexOf(list[1..], address);
      if k == -1 then -1 else k + 1
  }

  function Addresses(list: seq<Device>): set<Address> {
    set d | d in list :: d.details.address
  }

  /** No two entries share an address. */
  predicate UniqueAddresses(list: seq<Device>) {
    forall i, j :: 0 <= i < j < |list| ==> list[i].details.address != list[j].details.address
  }

  /** `collect()`: append a new address; replace the entry of a known one in place. */
  function Collect(list: seq<Device>, d: Device): (r: seq<Device>)
    ensures d.details.address !in Addresses(list) ==> r == list + [d]
    ensures d.details.address in Addresses(list) ==> |r| == |list|
    ensures d.details.address in Addresses(list) && UniqueAddresses(list) ==>
              forall j :: 0 <= j < |list| ==>
                r[j] == (if list[j].details.address == d.details.address then d else list[j])
    ensures Addresses(r) == Addresses(list) + {d.details.address}
    ensures UniqueAddresses(list) ==> UniqueAddresses(r)
    ensures d in r
  {
    var i := IndexOf(list, d.details.address);
    if i == -1 then
      assert forall e :: e in list ==> e.details.address != d.details.address;
      assert Addresses(list + [d]) == Addresses(list) + {d.details.address} by {
        assert forall e :: e in list + [d] <==> e in list || e == d;
      }
      list + [d]
    else
      var r := list[i := d];
      assert r[i] == d;
      assert Addresses(r) == Addresses(list) + {d.details.address} by {
        forall a | a in Addresses(list) + {d.details.address} ensures a in Addresses(r) {
          if a != d.details.address {
            var e :| e in list && e.details.address == a;
            var k :| 0 <= k < |list| && list[k] == e;
            assert r[k] == e;
          } else {
            assert r[i] == d;
          }
        }
      }
      r
  }

  /** The list after collecting each of `ds` in turn. */
  function CollectAll(list: seq<Device>, ds: seq<Device>): seq<Device>
    decreases |ds|
  {
    if ds == [] then list else CollectAll(Collect(list, ds[0]), ds[1..])
  }

  lemma {:induction false} CollectAllAppend(list: seq<Device>, a: seq<Device>, b: seq<Device>)
    ensures CollectAll(list, a + b) == CollectAll(CollectAll(list, a), b)
    decreases |a|
  {
    if a == [] {
      assert a + b == b;
    } else {
      assert (a + b)[0] == a[0] && (a + b)[1..] == a[1..] + b;
      CollectAllAppend(Collect(list, a[0]), a[1..], b);
    }
  }

  /** The addresses of a non-empty run of devices: the first one's, then the rest's. */
  lemma AddressesCons(ds: seq<Device>)
    requires ds != []
    ensures Addresses(ds) == {ds[0].details.address} + Addresses(ds[1..])
  {
    assert forall e :: e in ds <==> e == ds[0] || e in ds[1..];
  }

  lemma {:induction false} CollectAllUnique(list: seq<Device>, ds: seq<Device>)
    requires UniqueAddresses(list)
    ensures UniqueAddresses(CollectAll(list, ds))
    decreases |ds|
  {
    if ds != [] {
      CollectAllUnique(Collect(list, ds[0]), ds[1..]);
    }
  }

  lemma {:induction false} CollectAllAddresses(list: seq<Device>, ds: seq<Device>)
    ensures Addresses(CollectAll(list, ds)) == Addresses(list) + Addresses(ds)
    decreases |ds|
  {
    if ds != [] {
      CollectAllAddresses(Collect(list, ds[0]), ds[1..]);
      AddressesCons(ds);
    }
  }

  lemma {:induction false} CollectAllHasLast(list: seq<Device>, ds: seq<Device>)
    requires UniqueAddresses(list)
    ensures |ds| > 0 ==> ds[|ds| - 1] in CollectAll(list, ds)
    decreases |ds|
  {
    if ds != [] {
      CollectAllUnique(Collect(list, ds[0]), []);
      if |ds| > 1 {
        CollectAllHasLast(Collect(list, ds[0]), ds[1..]);
        assert ds[1..][|ds[1..]| - 1] == ds[|ds| - 1];
      } else {
        assert ds[1..] == [];
      }
    }
  }

  /** The collected list holds exactly the addresses seen, each once, with the latest device for it. */
  lemma CollectAllKeyed(list: seq<Device>, ds: seq<Device>)
    requires UniqueAddresses(list)
    ensures UniqueAddresses(CollectAll(list, ds))
    ensures Addresses(CollectAll(list, ds)) == Addresses(list) + Addresses(ds)
    ensures |ds| > 0 ==> ds[|ds| - 1] in CollectAll(list, ds)
  {
    CollectAllUnique(list, ds);
    CollectAllAddresses(list, ds);
    CollectAllHasLast(list, ds);
  }

  // ---------------------------------------------------------------------
  // The request object and its session.

  /** The request's fields, and the API object its engine drives. */
  datatype Request = Request(
    filters: Filters,
    devices: seq<Device>,     // mDevices
    operation: Option<nat>,   // mOperation: the id of the last armed operation
    armed: nat,               // how many operations have been armed; the next id
    live: set<nat>,           // armed operations neither fired nor cancelled
    api: SearchApi.Api)

  /** `Builder.create()`. */
  function Create(f: Filters): (r: Request)
    ensures r.filters == f && r.devices == [] && r.operation.None? && r.live == {}
  {
    Request(f, [], None, 0, {}, SearchApi.Api(false))
  }

  /** Well-formed bookkeeping of operation ids. */
  predicate Valid(req: Request) {
    && (forall id :: id in req.live ==> id < req.armed)
    && (req.operation.Some? ==> req.operation.value < req.armed)
    && UniqueAddresses(req.devices)
  }

  /** What reaches the request during a session. */
  datatype Input =
    | Broadcast(event: RawEvent)   // a platform broadcast
    | Expire(id: nat)              // the 30-second operation `id` reaches its deadline
    | StopRequest                  // the caller calls `SearchRequest.stop()`

  datatype Handled = Handled(req: Request, devices: seq<Device>, effects: seq<Effect>)

  /** `detectStart()`, `extractDevice()`, `discardByFilter()` and `collect()` on one search event. */
  function OnEvent(req: Request, ev: SearchApi.SearchEvent): (h: Handled)
    ensures ev.SearchStarted? ==>
              h.effects == [CountForSeconds(req.armed, SEARCH_SECONDS)]
              && h.req.operation == Some(req.armed) && h.req.armed == req.armed + 1
              && h.req.live == req.live + {req.armed} && h.devices == []
              && h.req.devices == req.devices
    ensures ev.Found? ==>
              h.effects == [] && h.req.operation == req.operation && h.req.armed == req.armed
              && h.req.live == req.live
              && h.devices == (if Accepts(req.filters, ev.device) then [ev.device] else [])
              && h.req.devices == CollectAll(req.devices, h.devices)
    ensures h.req.filters == req.filters && h.req.api == req.api
  {
    match ev
    case SearchStarted =>
      var id := req.armed;
      Handled(req.(operation := Some(id), armed := id + 1, live := req.live + {id}),
              [], [CountForSeconds(id, SEARCH_SECONDS)])
    case Found(d) =>
      if Accepts(req.filters, d) then Handled(req.(devices := Collect(req.devices, d)), [d], [])
      else Handled(req, [], [])
  }

  /** `SearchRequest.stop()`: cancel the stored operation, if any, then stop the engine. */
  function Stop(req: Request): (h: Handled)
    ensures h.req.api.stopRequested && h.devices == []
    ensures req.operation.None? ==> h.effects == [CancelDiscovery] && h.req.live == req.live
    ensures req.operation.Some? ==>
              h.effects == [TimerCancel(req.operation.value), CancelDiscovery]
              && h.req.live == req.live - {req.operation.value}
    ensures h.req.devices == req.devices && h.req.operation == req.operation && h.req.armed == req.armed
  {
    var cancel := if req.operation.Some? then [TimerCancel(req.operation.value)] else [];
    var live := if req.operation.Some? then req.live - {req.operation.value} else req.live;
    var s := SearchEngine.Stop(req.api);
    Handled(req.(live := live, api := s.api), [], cancel + s.effects)
  }

  /** The listener of an operation that reaches its deadline: it stops the engine, once. */
  function OnTimeout(req: Request, id: nat): (h: Handled)
    ensures id in req.live ==> h.effects == [CancelDiscovery] && h.req.api.stopRequested
    ensures id !in req.live ==> h == Handled(req, [], [])
    ensures h.req.live == req.live - {id} && h.devices == []
    ensures h.req.devices == req.devices && h.req.operation == req.operation && h.req.armed == req.armed
  {
    if id in req.live then
      var s := SearchEngine.Stop(req.api);
      Handled(req.(live := req.live - {id}, api := s.api), [], s.effects)
    else Handled(req, [], [])
  }

  datatype StepOut = StepOut(req: Request, devices: seq<Device>, effects: seq<Effect>, closed: Option<Ending>)

  /** One input; broadcasts reach the API only while its flow is open. */
  function Step(req: Request, open: bool, input: Input): (o: StepOut)
    ensures o.req.filters == req.filters
    ensures o.closed.Some? ==> open && o.devices == [] && o.closed.value != Pending
    ensures !open && input.Broadcast? ==> o == StepOut(req, [], [], None)
    ensures o.closed == Some(Completed) <==>
              open && input.Broadcast? && SearchApi.IsEndOfSearch(input.event, req.api.stopRequested)
    ensures input.StopRequest? ==> o.req.api.stopRequested && o.closed.None?
  {
    match input
    case Broadcast(e) =>
      if !open then StepOut(req, [], [], None)
      else
        var a := SearchApi.Step(req.api, SearchApi.Arrive(e));
        if a.closed.Some? then StepOut(req.(api := a.api), [], a.effects, a.closed)
        else if a.events == [] then StepOut(req.(api := a.api), [], a.effects, None)
        else
          var h := OnEvent(req.(api := a.api), a.events[0]);
          StepOut(h.req, h.devices, a.effects + h.effects, None)
    case Expire(id) =>
      var h := OnTimeout(req, id);
      StepOut(h.req, [], h.effects, None)
    case StopRequest =>
      var h := Stop(req);
      StepOut(h.req, [], h.effects, None)
  }

  /** The emitted devices, ending and calls of a session, and the request it leaves. */
  datatype Outcome = Outcome(devices: seq<Device>, ending: Ending, effects: seq<Effect>, req: Request)

  function Session(req: Request, ending: Ending, inputs: seq<Input>): (r: Outcome)
    ensures r.req.filters == req.filters
    decreases |inputs|
  {
    if inputs == [] then Outcome([], ending, [], req)
    else
      var o := Step(req, ending == Pending, inputs[0]);
      var r := Session(o.req, if o.closed.Some? then o.closed.value else ending, inputs[1..]);
      Outcome(o.devices + r.devices, r.ending, o.effects + r.effects, r.req)
  }

  /** `SearchRequest.perform()`: the engine's search, with the list cleared when collection starts. */
  function Perform(req: Request, radioOn: bool, inputs: seq<Input>): Outcome {
    var reset := ResetRadio(radioOn);
    var launch := SearchApi.StartSearch();
    var r := Session(req.(devices := [], api := SearchApi.Api(false)), Pending, inputs);
    r.(effects := reset + launch.effects + r.effects)
  }

  // ---------------------------------------------------------------------
  // What a session promises.

  /** Sessions compose: running `pre + post` is running `pre`, then `post` from where it left off. */
  lemma {:induction false} SessionAppend(req: Request, ending: Ending, pre: seq<Input>, post: seq<Input>)
    ensures var a := Session(req, ending, pre);
            var b := Session(a.req, a.ending, post);
            Session(req, ending, pre + post) == Outcome(a.devices + b.devices, b.ending, a.effects + b.effects, b.req)
    decreases |pre|
  {
    if pre == [] {
      assert pre + post == post;
      var b := Session(req, ending, post);
      assert [] + b.devices == b.devices && [] + b.effects == b.effects;
    } else {
      var xs := pre + post;
      assert xs[0] == pre[0] && xs[1..] == pre[1..] + post;
      var o := Step(req, ending == Pending, pre[0]);
      var e' := if o.closed.Some? then o.closed.value else ending;
      SessionAppend(o.req, e', pre[1..], post);
      var a' := Session(o.req, e', pre[1..]);
      var b := Session(a'.req, a'.ending, post);
      AppendAssoc(o.effects, a'.effects, b.effects);
      AppendAssoc(o.devices, a'.devices, b.devices);
    }
  }

  /** Once the flow has ended nothing more is emitted, the ending stays, and no operation is armed. */
  lemma {:induction false} ClosedSession(req: Request, ending: Ending, inputs: seq<Input>)
    requires ending != Pending
    ensures Session(req, ending, inputs).devices == []
    ensures Session(req, ending, inputs).ending == ending
    ensures Arms(Session(req, ending, inputs).effects) == 0
    decreases |inputs|
  {
    if inputs != [] {
      var o := Step(req, false, inputs[0]);
      ClosedSession(o.req, ending, inputs[1..]);
      ArmsAppend(o.effects, Session(o.req, ending, inputs[1..]).effects);
    }
  }

  /** A step adds to the list exactly the devices it emits. */
  lemma StepCollects(req: Request, open: bool, x: Input)
    ensures Step(req, open, x).req.devices == CollectAll(req.devices, Step(req, open, x).devices)
  {
  }

  /** The request's list is exactly what collecting the emitted devices, in order, yields. */
  lemma {:induction false} ListIsCollected(req: Request, ending: Ending, inputs: seq<Input>)
    ensures var r := Session(req, ending, inputs);
            r.req.devices == CollectAll(req.devices, r.devices)
    decreases |inputs|
  {
    if inputs != [] {
      var o := Step(req, ending == Pending, inputs[0]);
      var e' := if o.closed.Some? then o.closed.value else ending;
      ListIsCollected(o.req, e', inputs[1..]);
      var r := Session(o.req, e', inputs[1..]);
      StepCollects(req, ending == Pending, inputs[0]);
      CollectAllAppend(req.devices, o.devices, r.devices);
    }
  }

  /** A step emits at most the device of the found-device broadcast it was given, and only if accepted. */
  lemma StepEmitsFound(req: Request, open: bool, x: Input)
    ensures forall d :: d in Step(req, open, x).devices ==>
              Accepts(req.filters, d) && x.Broadcast? && x.event.action == DeviceFound
              && x.event.device == Some(d.details)
  {
  }

  /** Every device the request emits passes its filters, and came from a found-device broadcast. */
  lemma {:induction false} OnlyAcceptedDevices(req: Request, ending: Ending, inputs: seq<Input>)
    ensures forall d :: d in Session(req, ending, inputs).devices ==>
              Accepts(req.filters, d)
              && exists i :: 0 <= i < |inputs| && inputs[i].Broadcast? && inputs[i].event.action == DeviceFound
                             && inputs[i].event.device == Some(d.details)
    decreases |inputs|
  {
    if inputs != [] {
      var o := Step(req, ending == Pending, inputs[0]);
      var e' := if o.closed.Some? then o.closed.value else ending;
      OnlyAcceptedDevices(o.req, e', inputs[1..]);
      var r := Session(o.req, e', inputs[1..]);
      StepEmitsFound(req, ending == Pending, inputs[0]);
      forall d | d in r.devices
        ensures exists i :: 0 <= i < |inputs| && inputs[i].Broadcast? && inputs[i].event.action == DeviceFound
                            && inputs[i].event.device == Some(d.details)
      {
        var i :| 0 <= i < |inputs[1..]| && inputs[1..][i].Broadcast? && inputs[1..][i].event.action == DeviceFound
                 && inputs[1..][i].event.device == Some(d.details);
        assert inputs[i + 1] == inputs[1..][i];
      }
    }
  }

  /** Every operation armed in `t` is a 30-second one with an id in `[lo, hi)`. */
  predicate ArmedWithin(t: seq<Effect>, lo: int, hi: int) {
    forall i :: 0 <= i < |t| && t[i].CountForSeconds? ==>
      t[i].seconds == SEARCH_SECONDS && lo <= t[i].id < hi
  }

  lemma ArmedWithinAppend(a: seq<Effect>, b: seq<Effect>, lo: int, mid: int, hi: int)
    requires ArmedWithin(a, lo, mid) && ArmedWithin(b, mid, hi) && lo <= mid <= hi
    ensures ArmedWithin(a + b, lo, hi)
  {
    forall i | 0 <= i < |a + b| && (a + b)[i].CountForSeconds?
      ensures (a + b)[i].seconds == SEARCH_SECONDS && lo <= (a + b)[i].id < hi
    {
      if i >= |a| {
        assert (a + b)[i] == b[i - |a|];
      }
    }
  }

  /** One input keeps the bookkeeping valid and arms at most the next operation, for thirty seconds. */
  lemma StepKeepsValid(req: Request, open: bool, input: Input)
    requires Valid(req)
    ensures var o := Step(req, open, input);
            Valid(o.req) && o.req.armed == req.armed + Arms(o.effects)
            && ArmedWithin(o.effects, req.armed, o.req.armed)
  {
    var o := Step(req, open, input);
    if input.Broadcast? && open {
      BroadcastKeepsValid(req, input.event);
    } else if input.StopRequest? {
      assert Arms(o.effects) == 0 by {
        if o.effects != [] && o.effects[1..] != [] {
          assert o.effects[1..][1..] == [];
        }
      }
    } else if input.Expire? {
      assert Arms(o.effects) == 0 by {
        if o.effects != [] {
          assert o.effects[1..] == [];
        }
      }
    }
  }

  predicate KeepsValid(req: Request, o: StepOut) {
    Valid(o.req) && o.req.armed == req.armed + Arms(o.effects) && ArmedWithin(o.effects, req.armed, o.req.armed)
  }

  lemma BroadcastKeepsValid(req: Request, e: RawEvent)
    requires Valid(req)
    ensures KeepsValid(req, Step(req, true, Broadcast(e)))
  {
    var a := SearchApi.Step(req.api, SearchApi.Arrive(e));
    assert Arms(a.effects) == 0 && ArmedWithin(a.effects, req.armed, req.armed) by {
      assert forall i :: 0 <= i < |a.effects| ==> !a.effects[i].CountForSeconds?;
      if a.effects != [] {
        assert a.effects[1..] == [];
      }
    }
    if a.closed.None? && a.events != [] {
      var h := OnEvent(req.(api := a.api), a.events[0]);
      EventKeepsValid(req.(api := a.api), a.events[0]);
      ArmsAppend(a.effects, h.effects);
      ArmedWithinAppend(a.effects, h.effects, req.armed, req.armed, h.req.armed);
    }
  }

  /** The request's handling of one API event keeps the bookkeeping valid. */
  lemma EventKeepsValid(req: Request, ev: SearchApi.SearchEvent)
    requires Valid(req)
    ensures var h := OnEvent(req, ev);
            Valid(h.req) && h.req.armed == req.armed + Arms(h.effects) && ArmedWithin(h.effects, req.armed, h.req.armed)
  {
    if ev.Found? && Accepts(req.filters, ev.device) {
      CollectAllKeyed(req.devices, [ev.device]);
    }
  }

  /** The armed operations are numbered in order, each for thirty seconds, and the bookkeeping stays valid. */
  lemma {:induction false} SessionKeepsValid(req: Request, ending: Ending, inputs: seq<Input>)
    requires Valid(req)
    ensures var r := Session(req, ending, inputs);
            Valid(r.req) && r.req.armed == req.armed + Arms(r.effects)
            && ArmedWithin(r.effects, req.armed, r.req.armed)
    decreases |inputs|
  {
    var r := Session(req, ending, inputs);
    if inputs != [] {
      var o := Step(req, ending == Pending, inputs[0]);
      var e' := if o.closed.Some? then o.closed.value else ending;
      StepKeepsValid(req, ending == Pending, inputs[0]);
      SessionKeepsValid(o.req, e', inputs[1..]);
      var r' := Session(o.req, e', inputs[1..]);
      assert r.effects == o.effects + r'.effects && r.req == r'.req;
      ArmsAppend(o.effects, r'.effects);
      ArmedWithinAppend(o.effects, r'.effects, req.armed, o.req.armed, r.req.armed);
    }
  }

  // ---------------------------------------------------------------------
  // The request on top of the API.

  /** The inputs as the API sees them; operation expiries are the request's own. */
  function ApiView(inputs: seq<Input>): (r: seq<SearchApi.Input>)
    ensures |r| <= |inputs|
    decreases |inputs|
  {
    if inputs == [] then []
    else
      match inputs[0]
      case Broadcast(e) => [SearchApi.Arrive(e)] + ApiView(inputs[1..])
      case StopRequest => [SearchApi.StopCall] + ApiView(inputs[1..])
      case Expire(_) => ApiView(inputs[1..])
  }

  predicate NoExpiry(inputs: seq<Input>) {
    forall i :: 0 <= i < |inputs| ==> !inputs[i].Expire?
  }

  /** The devices of the API's found events that pass the filters, in order. */
  function FoundAccepted(f: Filters, evs: seq<SearchApi.SearchEvent>): seq<Device>
    decreases |evs|
  {
    if evs == [] then []
    else (if evs[0].Found? && Accepts(f, evs[0].device) then [evs[0].device] else []) + FoundAccepted(f, evs[1..])
  }

  /** Number of discovery-started events. */
  function Starts(evs: seq<SearchApi.SearchEvent>): nat
    decreases |evs|
  {
    if evs == [] then 0 else (if evs[0].SearchStarted? then 1 else 0) + Starts(evs[1..])
  }

  lemma {:induction false} FoundAcceptedAppend(f: Filters, a: seq<SearchApi.SearchEvent>, b: seq<SearchApi.SearchEvent>)
    ensures FoundAccepted(f, a + b) == FoundAccepted(f, a) + FoundAccepted(f, b)
    ensures Starts(a + b) == Starts(a) + Starts(b)
    decreases |a|
  {
    if a == [] {
      assert a + b == b;
    } else {
      assert (a + b)[0] == a[0] && (a + b)[1..] == a[1..] + b;
      FoundAcceptedAppend(f, a[1..], b);
    }
  }

  /** The API input a request input that is not an expiry stands for. */
  function ApiInput(x: Input): SearchApi.Input
    requires !x.Expire?
  {
    if x.Broadcast? then SearchApi.Arrive(x.event) else SearchApi.StopCall
  }

  lemma ApiViewCons(inputs: seq<Input>)
    requires inputs != [] && !inputs[0].Expire?
    ensures ApiView(inputs) == [ApiInput(inputs[0])] + ApiView(inputs[1..])
  {
  }

  lemma NoExpiryTail(inputs: seq<Input>)
    requires inputs != [] && NoExpiry(inputs)
    ensures NoExpiry(inputs[1..])
  {
    forall i | 0 <= i < |inputs[1..]| ensures !inputs[1..][i].Expire? {
      assert inputs[1..][i] == inputs[i + 1];
    }
  }

  /** One open step of the request is one step of the API seen through the filters. */
  lemma StepFollowsApi(req: Request, x: Input)
    requires !x.Expire?
    ensures var o := Step(req, true, x);
            var a := SearchApi.Step(req.api, ApiInput(x));
            o.req.api == a.api && o.closed == a.closed
            && o.devices == FoundAccepted(req.filters, a.events) && Arms(o.effects) == Starts(a.events)
  {
    var a := SearchApi.Step(req.api, ApiInput(x));
    var o := Step(req, true, x);
    assert Arms(a.effects) == 0 by {
      NoArms(a.effects);
    }
    if x.Broadcast? && a.closed.None? && a.events != [] {
      assert a.events == [a.events[0]];
      var h := OnEvent(req.(api := a.api), a.events[0]);
      EventFollowsApi(req.(api := a.api), a.events[0]);
      ArmsAppend(a.effects, h.effects);
    } else {
      NoArms(o.effects);
    }
  }

  /** The request's handling of one API event emits its accepted device and arms once per start. */
  lemma EventFollowsApi(req: Request, ev: SearchApi.SearchEvent)
    ensures var h := OnEvent(req, ev);
            h.devices == FoundAccepted(req.filters, [ev]) && Arms(h.effects) == Starts([ev])
  {
    var h := OnEvent(req, ev);
    assert [ev][1..] == [];
    if h.effects != [] {
      assert h.effects[1..] == [];
    }
  }

  /** The API's feed after its first input. */
  lemma FeedCons(api: SearchApi.Api, x: SearchApi.Input, rest: seq<SearchApi.Input>)
    ensures var a := SearchApi.Step(api, x);
            var f := if a.closed.Some? then SearchApi.Drain(a.api, rest, a.closed.value) else SearchApi.Feed(a.api, rest);
            SearchApi.Feed(api, [x] + rest).events == a.events + f.events
            && SearchApi.Feed(api, [x] + rest).ending == f.ending
            && SearchApi.Feed(api, [x] + rest).effects == a.effects + f.effects
  {
    var xs := [x] + rest;
    assert xs[0] == x && xs[1..] == rest;
  }

  /**
    Without expiries the request sees exactly the API's session: it ends as the
    API's flow ends, emits the API's found devices its filters accept, and arms
    one operation per discovery start.
  */
  lemma {:induction false} SessionFollowsApi(req: Request, inputs: seq<Input>)
    requires NoExpiry(inputs)
    ensures var s := Session(req, Pending, inputs);
            var f := SearchApi.Feed(req.api, ApiView(inputs));
            s.ending == f.ending && s.devices == FoundAccepted(req.filters, f.events)
            && Arms(s.effects) == Starts(f.events)
    decreases |inputs|
  {
    if inputs != [] {
      NoExpiryTail(inputs);
      var x := inputs[0];
      var o := Step(req, true, x);
      var s' := Session(o.req, if o.closed.Some? then o.closed.value else Pending, inputs[1..]);
      var a := SearchApi.Step(req.api, ApiInput(x));
      StepFollowsApi(req, x);
      ApiViewCons(inputs);
      FeedCons(req.api, ApiInput(x), ApiView(inputs[1..]));
      var f' := if a.closed.Some? then SearchApi.Drain(a.api, ApiView(inputs[1..]), a.closed.value) else SearchApi.Feed(a.api, ApiView(inputs[1..]));
      if a.closed.Some? {
        ClosedSession(o.req, a.closed.value, inputs[1..]);
      } else {
        SessionFollowsApi(o.req, inputs[1..]);
      }
      FoundAcceptedAppend(req.filters, a.events, f'.events);
      ArmsAppend(o.effects, s'.effects);
    }
  }

  /**
    Without expiries `perform()` is the engine's search seen through the
    filters: the same power cycle and discovery start, the same ending, the
    engine's accepted devices, one thirty-second operation per start.
  */
  lemma PerformFollowsEngine(req: Request, radioOn: bool, inputs: seq<Input>)
    requires NoExpiry(inputs)
    ensures var p := Perform(req, radioOn, inputs);
            var e := SearchEngine.Search(radioOn, req.api, ApiView(inputs));
            var k := |ResetRadio(radioOn)|;
            p.effects[..k + 1] == e.effects[..k + 1]
            && p.ending == e.ending && p.devices == FoundAccepted(req.filters, e.events)
            && Arms(p.effects) == Starts(e.events)
    ensures var p := Perform(req, radioOn, inputs);
            var e := SearchEngine.Search(radioOn, req.api, ApiView(inputs));
            DiscoveryCalls(p.effects) == DiscoveryCalls(e.effects)
            && Count(StartDiscovery, p.effects) == Count(StartDiscovery, e.effects)
            && Count(CancelDiscovery, p.effects) == Count(CancelDiscovery, e.effects)
  {
    SessionFollowsApi(req.(devices := [], api := SearchApi.Api(false)), inputs);
    PerformStarts(req, radioOn, inputs);
    EngineStarts(radioOn, req.api, ApiView(inputs));
    PerformCallsFollowEngine(req, radioOn, inputs);
  }

  /** `perform()`'s calls open with the power cycle and the discovery start, which arm nothing. */
  lemma PerformStarts(req: Request, radioOn: bool, inputs: seq<Input>)
    ensures var p := Perform(req, radioOn, inputs);
            var s := Session(req.(devices := [], api := SearchApi.Api(false)), Pending, inputs);
            var k := |ResetRadio(radioOn)|;
            p.effects[..k + 1] == ResetRadio(radioOn) + [StartDiscovery] && Arms(p.effects) == Arms(s.effects)
  {
    var reset := ResetRadio(radioOn);
    var s := Session(req.(devices := [], api := SearchApi.Api(false)), Pending, inputs);
    ArmsAppend(reset + [StartDiscovery], s.effects);
    NoArms(reset + [StartDiscovery]);
    var ps := reset + [StartDiscovery] + s.effects;
    assert ps[..|reset| + 1] == reset + [StartDiscovery];
  }

  /** The engine's calls open with its power cycle and the discovery start. */
  lemma EngineStarts(radioOn: bool, api: SearchApi.Api, inputs: seq<SearchApi.Input>)
    ensures var k := |ResetRadio(radioOn)|;
            SearchEngine.Search(radioOn, api, inputs).effects[..k + 1] == ResetRadio(radioOn) + [StartDiscovery]
  {
    var reset := ResetRadio(radioOn);
    var s := SearchApi.Search(api, inputs);
    assert SearchEngine.Search(radioOn, api, inputs).effects == reset + s.effects;
    var es := reset + s.effects;
    assert es[..|reset| + 1] == reset + [s.effects[0]];
  }

  /** The adapter's discovery calls in a trace, in order; timer and power calls are left out. */
  function DiscoveryCalls(t: seq<Effect>): seq<Effect>
    decreases |t|
  {
    if t == [] then []
    else (if t[0] == StartDiscovery || t[0] == CancelDiscovery then [t[0]] else []) + DiscoveryCalls(t[1..])
  }

  lemma {:induction false} DiscoveryCallsAppend(a: seq<Effect>, b: seq<Effect>)
    ensures DiscoveryCalls(a + b) == DiscoveryCalls(a) + DiscoveryCalls(b)
    decreases |a|
  {
    if a == [] {
      assert a + b == b;
    } else {
      assert (a + b)[0] == a[0] && (a + b)[1..] == a[1..] + b;
      DiscoveryCallsAppend(a[1..], b);
      var head := if a[0] == StartDiscovery || a[0] == CancelDiscovery then [a[0]] else [];
      AppendAssoc(head, DiscoveryCalls(a[1..]), DiscoveryCalls(b));
    }
  }

  /** Leaving out the other calls keeps the number of discovery starts and cancels. */
  lemma {:induction false} DiscoveryCallsKeepCount(c: Effect, t: seq<Effect>)
    requires c == StartDiscovery || c == CancelDiscovery
    ensures Count(c, DiscoveryCalls(t)) == Count(c, t)
    decreases |t|
  {
    if t != [] {
      DiscoveryCallsKeepCount(c, t[1..]);
      var head := if t[0] == StartDiscovery || t[0] == CancelDiscovery then [t[0]] else [];
      CountAppend(c, head, DiscoveryCalls(t[1..]));
    }
  }

  /** A trace of discovery calls only is its own discovery calls. */
  lemma {:induction false} DiscoveryCallsOfDiscovery(t: seq<Effect>)
    requires SearchApi.OnlyDiscoveryCalls(t)
    ensures DiscoveryCalls(t) == t
    decreases |t|
  {
    if t != [] {
      assert SearchApi.OnlyDiscoveryCalls(t[1..]) by {
        forall i | 0 <= i < |t[1..]| ensures t[1..][i] == StartDiscovery || t[1..][i] == CancelDiscovery {
          assert t[1..][i] == t[i + 1];
        }
      }
      DiscoveryCallsOfDiscovery(t[1..]);
      assert t == [t[0]] + t[1..];
    }
  }

  /** Apart from its timer calls, one open step of the request makes exactly the API step's calls. */
  lemma StepCallsFollowApi(req: Request, x: Input)
    requires !x.Expire?
    ensures DiscoveryCalls(Step(req, true, x).effects) == SearchApi.Step(req.api, ApiInput(x)).effects
  {
    var a := SearchApi.Step(req.api, ApiInput(x));
    var o := Step(req, true, x);
    SearchApi.StepCalls(req.api, ApiInput(x));
    DiscoveryCallsOfDiscovery(a.effects);
    if x.StopRequest? {
      var cancel := if req.operation.Some? then [TimerCancel(req.operation.value)] else [];
      assert o.effects == cancel + [CancelDiscovery];
      assert DiscoveryCalls(cancel) == [] by {
        if cancel != [] {
          assert cancel[1..] == [];
        }
      }
      DiscoveryCallsAppend(cancel, [CancelDiscovery]);
    } else if a.closed.None? && a.events != [] {
      var h := OnEvent(req.(api := a.api), a.events[0]);
      assert o.effects == a.effects + h.effects;
      assert DiscoveryCalls(h.effects) == [] by {
        if h.effects != [] {
          assert h.effects[1..] == [];
        }
      }
      DiscoveryCallsAppend(a.effects, h.effects);
    }
  }

  /** Once the flow has ended, and without expiries, the request's discovery calls are the API's: a cancel per stop. */
  lemma {:induction false} ClosedCallsFollowApi(req: Request, ending: Ending, inputs: seq<Input>)
    requires ending != Pending && NoExpiry(inputs)
    ensures DiscoveryCalls(Session(req, ending, inputs).effects) == SearchApi.Drain(req.api, ApiView(inputs), ending).effects
    decreases |inputs|
  {
    if inputs != [] {
      NoExpiryTail(inputs);
      var x := inputs[0];
      var o := Step(req, false, x);
      ClosedCallsFollowApi(o.req, ending, inputs[1..]);
      ApiViewCons(inputs);
      var xs := ApiView(inputs);
      assert xs[0] == ApiInput(x) && xs[1..] == ApiView(inputs[1..]);
      DiscoveryCallsAppend(o.effects, Session(o.req, ending, inputs[1..]).effects);
      if x.StopRequest? {
        var cancel := if req.operation.Some? then [TimerCancel(req.operation.value)] else [];
        assert o.effects == cancel + [CancelDiscovery];
        assert DiscoveryCalls(cancel) == [] by {
          if cancel != [] {
            assert cancel[1..] == [];
          }
        }
        DiscoveryCallsAppend(cancel, [CancelDiscovery]);
      }
    }
  }

  /** Without expiries, the request's discovery calls over a session are exactly the API's, in order. */
  lemma {:induction false} SessionCallsFollowApi(req: Request, inputs: seq<Input>)
    requires NoExpiry(inputs)
    ensures DiscoveryCalls(Session(req, Pending, inputs).effects) == SearchApi.Feed(req.api, ApiView(inputs)).effects
    decreases |inputs|
  {
    if inputs != [] {
      NoExpiryTail(inputs);
      var x := inputs[0];
      var o := Step(req, true, x);
      var a := SearchApi.Step(req.api, ApiInput(x));
      StepFollowsApi(req, x);
      StepCallsFollowApi(req, x);
      ApiViewCons(inputs);
      FeedCons(req.api, ApiInput(x), ApiView(inputs[1..]));
      var e' := if o.closed.Some? then o.closed.value else Pending;
      if a.closed.Some? {
        ClosedCallsFollowApi(o.req, a.closed.value, inputs[1..]);
      } else {
        SessionCallsFollowApi(o.req, inputs[1..]);
      }
      DiscoveryCallsAppend(o.effects, Session(o.req, e', inputs[1..]).effects);
    }
  }

  /**
    Without expiries `perform()` makes the engine's discovery calls, in order:
    the discovery start, a restart per finished cycle while the flow is open,
    and a cancel per stop; its other calls are the power cycle and timers.
  */
  lemma PerformCallsFollowEngine(req: Request, radioOn: bool, inputs: seq<Input>)
    requires NoExpiry(inputs)
    ensures var p := Perform(req, radioOn, inputs);
            var e := SearchEngine.Search(radioOn, req.api, ApiView(inputs));
            DiscoveryCalls(p.effects) == DiscoveryCalls(e.effects)
            && Count(StartDiscovery, p.effects) == Count(StartDiscovery, e.effects)
            && Count(CancelDiscovery, p.effects) == Count(CancelDiscovery, e.effects)
  {
    var reset := ResetRadio(radioOn);
    var start := reset + [StartDiscovery];
    var r0 := req.(devices := [], api := SearchApi.Api(false));
    var s := Session(r0, Pending, inputs);
    var f := SearchApi.Feed(SearchApi.Api(false), ApiView(inputs));
    SessionCallsFollowApi(r0, inputs);
    SearchApi.FeedCalls(SearchApi.Api(false), ApiView(inputs));
    DiscoveryCallsOfDiscovery(f.effects);
    var p := Perform(req, radioOn, inputs);
    var e := SearchEngine.Search(radioOn, req.api, ApiView(inputs));
    assert p.effects == start + s.effects;
    assert e.effects == start + f.effects by {
      assert SearchApi.Search(req.api, ApiView(inputs)).effects == [StartDiscovery] + f.effects;
      AppendAssoc(reset, [StartDiscovery], f.effects);
    }
    DiscoveryCallsAppend(start, s.effects);
    DiscoveryCallsAppend(start, f.effects);
    DiscoveryCallsKeepCount(StartDiscovery, p.effects);
    DiscoveryCallsKeepCount(StartDiscovery, e.effects);
    DiscoveryCallsKeepCount(CancelDiscovery, p.effects);
    DiscoveryCallsKeepCount(CancelDiscovery, e.effects);
  }

  /** `perform()` clears the list: afterwards it holds each address this session emitted, once. */
  lemma PerformRestartsList(req: Request, radioOn: bool, inputs: seq<Input>)
    ensures var p := Perform(req, radioOn, inputs);
            p.req.devices == CollectAll([], p.devices)
            && UniqueAddresses(p.req.devices)
            && Addresses(p.req.devices) == Addresses(p.devices)
  {
    var r0 := req.(devices := [], api := SearchApi.Api(false));
    ListIsCollected(r0, Pending, inputs);
    CollectAllKeyed([], Session(r0, Pending, inputs).devices);
  }

  /**
    The expiry of a live operation stops the engine, so the next discovery-finished
    broadcast completes the flow, whatever follows.
  */
  lemma ExpiryThenFinishCompletes(req: Request, pre: seq<Input>, id: nat, finished: RawEvent, post: seq<Input>)
    requires Session(req, Pending, pre).ending == Pending
    requires id in Session(req, Pending, pre).req.live
    requires finished.action == DiscoveryFinished
    ensures Session(req, Pending, pre + [Expire(id), Broadcast(finished)] + post).ending == Completed
  {
    var a := Session(req, Pending, pre);
    var rest := [Expire(id), Broadcast(finished)] + post;
    SessionAppend(req, Pending, pre, rest);
    AppendAssoc(pre, [Expire(id), Broadcast(finished)], post);
    ExpiryThenFinishCloses(a.req, id, finished, post);
  }

  lemma ExpiryThenFinishCloses(req: Request, id: nat, finished: RawEvent, post: seq<Input>)
    requires id in req.live && finished.action == DiscoveryFinished
    ensures Session(req, Pending, [Expire(id), Broadcast(finished)] + post).ending == Completed
  {
    var rest := [Expire(id), Broadcast(finished)] + post;
    assert rest[0] == Expire(id) && rest[1..][0] == Broadcast(finished) && rest[1..][1..] == post;
    var o1 := Step(req, true, Expire(id));
    assert o1.req.api.stopRequested;
    var o2 := Step(o1.req, true, Broadcast(finished));
    assert o2.closed == Some(Completed);
    ClosedSession(o2.req, Completed, post);
  }

  /**
    `stop()` cancels only the operation stored last: an operation armed by an
    earlier discovery start is still live and, when it expires, calls the engine's
    `stop()` a second time.
  */
  lemma StopSparesEarlierOperations(req: Request, k: nat)
    requires k in req.live && req.operation.Some? && req.operation.value != k
    ensures var r := Session(req, Pending, [StopRequest, Expire(k)]);
            r.effects == [TimerCancel(req.operation.value), CancelDiscovery, CancelDiscovery]
            && Count(CancelDiscovery, r.effects) == 2
  {
    var inputs := [StopRequest, Expire(k)];
    var o1 := Step(req, true, StopRequest);
    assert k in o1.req.live;
    assert inputs[1..] == [Expire(k)] && inputs[1..][1..] == [];
    assert Session(o1.req, Pending, [Expire(k)]).effects == [CancelDiscovery] + [];
    TwoCancels(req.operation.value);
  }

  lemma TwoCancels(id: nat)
    ensures Count(CancelDiscovery, [TimerCancel(id), CancelDiscovery, CancelDiscovery]) == 2
  {
    var t := [TimerCancel(id), CancelDiscovery, CancelDiscovery];
    assert t[1..] == [CancelDiscovery, CancelDiscovery] && t[1..][1..] == [CancelDiscovery];
    assert t[1..][1..][1..] == [];
    assert Count(CancelDiscovery, t[1..][1..]) == 1;
    assert Count(CancelDiscovery, t[1..]) == 2;
  }
}
