/**
  `SearchApi`: discovery over the bridge. The stop flag is mutable state
  read by the exit condition at each broadcast's arrival, so a session is
  driven by a sequence of inputs that interleaves broadcasts with calls of
  `stop()`. `Feed` is the step-by-step model; `Pipeline` is the same
  session written as the source composes it (bridge, then `extractEvent`,
  then `filterNotNull`); `FeedIsScan` and `SearchIsPipeline` prove the
  two agree.
*/
module SearchApi {
  import opened Common
  import opened Events
  import opened Bridge
  import opened Devices

  /** `SearchEvent`: either the discovery-started marker or a found device. */
  datatype SearchEvent = SearchStarted | Found(device: Device)

  /** What reaches the API during a session: a broadcast, or a call of `stop()`. */
  datatype Input = Arrive(event: RawEvent) | StopCall

  /** The API object's state: `mStopRequested`. */
  datatype Api = Api(stopRequested: bool)

  datatype Stepped = Stepped(api: Api, effects: seq<Effect>)

  /** `SearchApi.stop()`. */
  function Stop(api: Api): (r: Stepped)
    ensures r.api.stopRequested
    ensures r.effects == [CancelDiscovery]
  {
    Stepped(Api(true), [CancelDiscovery])
  }

  /** The start command's synthetic events and the calls it makes. */
  datatype Launch = Launch(events: Result<seq<RawEvent>, Failure>, effects: seq<Effect>)

  /** `startSearch()`: starts discovery and synthesises no event. */
  function StartSearch(): (r: Launch)
    ensures r.events == Ok([])
    ensures r.effects == [StartDiscovery]
  {
    Launch(Ok([]), [StartDiscovery])
  }

  /** `detectEndOfSearch()`: a finished discovery while a stop is requested. */
  predicate IsEndOfSearch(e: RawEvent, stopRequested: bool) {
    e.action == DiscoveryFinished && stopRequested
  }

  datatype Classified = Classified(out: Result<Option<SearchEvent>, Failure>, effects: seq<Effect>)

  /** `extractEvent()`: classification; a finished cycle restarts discovery and is dropped. */
  function Extract(e: RawEvent): (r: Classified)
    ensures r.out == Ok(Some(SearchStarted)) <==> e.action == DiscoveryStarted
    ensures (r.out.Ok? && r.out.value.Some? && r.out.value.value.Found?)
            <==> e.action == DeviceFound && e.device.Some?
    ensures r.out.Ok? && r.out.value.Some? && r.out.value.value.Found? ==>
              Ok(r.out.value.value.device) == FromEvent(e)
    ensures r.out.Err? <==> e.action == DeviceFound && e.device.None?
    ensures r.out.Err? ==> r.out.error == NullDevice
    ensures r.effects == (if e.action == DiscoveryFinished then [StartDiscovery] else [])
  {
    match e.action
    case DiscoveryStarted => Classified(Ok(Some(SearchStarted)), [])
    case DeviceFound =>
      (match FromEvent(e)
       case Ok(d) => Classified(Ok(Some(Found(d))), [])
       case Err(f) => Classified(Err(f), []))
    case DiscoveryFinished => Classified(Ok(None), [StartDiscovery])
    case _ => Classified(Ok(None), [])
  }

  /** Number of `stop()` calls among the inputs. */
  function Stops(inputs: seq<Input>): nat {
    if inputs == [] then 0 else (if inputs[0] == StopCall then 1 else 0) + Stops(inputs[1..])
  }

  /** The events, ending and calls of one session, and the flag it leaves. */
  datatype Run = Run(events: seq<SearchEvent>, ending: Ending, effects: seq<Effect>, api: Api)

  /**
    After the flow has ended the bridge no longer listens, but `stop()`
    still reaches the adapter and sets the flag.
  */
  function Drain(api: Api, inputs: seq<Input>, ending: Ending): (r: Run)
    ensures r.events == [] && r.ending == ending
    ensures |r.effects| == Count(CancelDiscovery, r.effects) == Stops(inputs)
    ensures forall i :: 0 <= i < |r.effects| ==> r.effects[i] == CancelDiscovery
    ensures r.api.stopRequested == (api.stopRequested || Stops(inputs) > 0)
    decreases |inputs|
  {
    if inputs == [] then Run([], ending, [], api)
    else match inputs[0]
      case StopCall =>
        var r := Drain(Stop(api).api, inputs[1..], ending);
        CountAppend(CancelDiscovery, [CancelDiscovery], r.effects);
        r.(effects := [CancelDiscovery] + r.effects)
      case Arrive(_) => Drain(api, inputs[1..], ending)
  }

  /** A trace of adapter discovery calls only. */
  predicate OnlyDiscoveryCalls(t: seq<Effect>) {
    forall i :: 0 <= i < |t| ==> t[i] == StartDiscovery || t[i] == CancelDiscovery
  }

  /** What one input does to the open flow; `closed` is set when the flow ends on it. */
  datatype StepOut = StepOut(api: Api, events: seq<SearchEvent>, effects: seq<Effect>, closed: Option<Ending>)

  /** One input reaching the open flow: the exit condition first, then `extractEvent`. */
  function Step(api: Api, input: Input): (o: StepOut)
    ensures |o.events| <= 1
    ensures o.closed.Some? ==> o.events == [] && (o.closed.value == Completed || o.closed.value == Failed(NullDevice))
    ensures input.StopCall? ==> o == StepOut(Api(true), [], [CancelDiscovery], None)
    ensures input.Arrive? ==> o.api == api
    ensures o.closed == Some(Completed) <==> input.Arrive? && IsEndOfSearch(input.event, api.stopRequested)
    ensures o.closed == Some(Failed(NullDevice)) <==>
              input.Arrive? && !IsEndOfSearch(input.event, api.stopRequested)
              && input.event.action == DeviceFound && input.event.device.None?
  {
    match input
    case StopCall =>
      var s := Stop(api);
      StepOut(s.api, [], s.effects, None)
    case Arrive(e) =>
      if IsEndOfSearch(e, api.stopRequested) then StepOut(api, [], [], Some(Completed))
      else
        var c := Extract(e);
        match c.out
        case Err(f) => StepOut(api, [], c.effects, Some(Failed(f)))
        case Ok(None) => StepOut(api, [], c.effects, None)
        case Ok(Some(ev)) => StepOut(api, [ev], c.effects, None)
  }

  /** The open flow, one input at a time. */
  function Feed(api: Api, inputs: seq<Input>): (r: Run)
    ensures r.ending == Pending || r.ending == Completed || r.ending == Failed(NullDevice)
    decreases |inputs|
  {
    if inputs == [] then Run([], Pending, [], api)
    else
      var o := Step(api, inputs[0]);
      var r := if o.closed.Some? then Drain(o.api, inputs[1..], o.closed.value) else Feed(o.api, inputs[1..]);
      Run(o.events + r.events, r.ending, o.effects + r.effects, r.api)
  }

  /** An open session calls the adapter only to start or cancel discovery, and cancels once per `stop()`. */
  lemma {:induction false} FeedCalls(api: Api, inputs: seq<Input>)
    ensures Count(CancelDiscovery, Feed(api, inputs).effects) == Stops(inputs)
    ensures OnlyDiscoveryCalls(Feed(api, inputs).effects)
    decreases |inputs|
  {
    if inputs != [] {
      var o := Step(api, inputs[0]);
      var r := if o.closed.Some? then Drain(o.api, inputs[1..], o.closed.value) else Feed(o.api, inputs[1..]);
      if o.closed.None? {
        FeedCalls(o.api, inputs[1..]);
      }
      StepCalls(api, inputs[0]);
      CountAppend(CancelDiscovery, o.effects, r.effects);
      OnlyDiscoveryCallsAppend(o.effects, r.effects);
    }
  }

  /** One input calls the adapter only about discovery, and cancels exactly on `stop()`. */
  lemma StepCalls(api: Api, x: Input)
    ensures Count(CancelDiscovery, Step(api, x).effects) == (if x.StopCall? then 1 else 0)
    ensures OnlyDiscoveryCalls(Step(api, x).effects)
  {
    var t := Step(api, x).effects;
    if x.StopCall? {
      assert t == [CancelDiscovery];
      assert t[1..] == [];
    } else {
      assert t == [] || t == [StartDiscovery];
      if t != [] {
        assert t[1..] == [];
      }
    }
  }

  lemma OnlyDiscoveryCallsAppend(a: seq<Effect>, b: seq<Effect>)
    requires OnlyDiscoveryCalls(a) && OnlyDiscoveryCalls(b)
    ensures OnlyDiscoveryCalls(a + b)
  {
    forall i | 0 <= i < |a + b| ensures (a + b)[i] == StartDiscovery || (a + b)[i] == CancelDiscovery {
      if i >= |a| {
        assert (a + b)[i] == b[i - |a|];
      }
    }
  }

  /** `SearchApi.search()`: clears the stop flag, runs the start command, then follows the inputs. */
  function Search(api: Api, inputs: seq<Input>): (r: Run)
    ensures |r.effects| >= 1 && r.effects[0] == StartDiscovery
    ensures r.ending == Pending || r.ending == Completed || r.ending == Failed(NullDevice)
    ensures Count(CancelDiscovery, r.effects) == Stops(inputs)
  {
    var launch := StartSearch();
    var r := Feed(Api(false), inputs);
    FeedCalls(Api(false), inputs);
    CountAppend(CancelDiscovery, launch.effects, r.effects);
    r.(effects := launch.effects + r.effects)
  }

  // ---------------------------------------------------------------------
  // The same session as the source composes it.

  /** A broadcast together with the stop flag at the moment it arrived. */
  datatype Arrival = Arrival(event: RawEvent, stopRequested: bool)

  /** Tags each broadcast with the flag that the preceding `stop()` calls left. */
  function Annotate(stopRequested: bool, inputs: seq<Input>): seq<Arrival>
    decreases |inputs|
  {
    if inputs == [] then []
    else match inputs[0]
      case StopCall => Annotate(true, inputs[1..])
      case Arrive(e) => [Arrival(e, stopRequested)] + Annotate(stopRequested, inputs[1..])
  }

  predicate ExitsSearch(a: Arrival) {
    IsEndOfSearch(a.event, a.stopRequested)
  }

  function RawOf(xs: seq<Arrival>): (r: seq<RawEvent>)
    ensures |r| == |xs| && forall i :: 0 <= i < |xs| ==> r[i] == xs[i].event
  {
    if xs == [] then [] else [xs[0].event] + RawOf(xs[1..])
  }

  /** `.map(extractEvent()).filterNotNull()` over what the bridge emitted; a throw fails the flow. */
  function Classify(raw: seq<RawEvent>, ending: Ending): (s: Stream<SearchEvent>)
    ensures |s.items| <= |raw|
    decreases |raw|
  {
    if raw == [] then Stream([], ending)
    else match Extract(raw[0]).out
      case Err(f) => Stream([], Failed(f))
      case Ok(None) => Classify(raw[1..], ending)
      case Ok(Some(ev)) =>
        var rest := Classify(raw[1..], ending);
        Stream([ev] + rest.items, rest.ending)
  }

  /** The flow `search()` returns, as the bridge and the operators compose it. */
  function Pipeline(inputs: seq<Input>): Stream<SearchEvent> {
    var start: Result<seq<Arrival>, Failure> :=
      match StartSearch().events
      case Ok(evs) => Ok(seq(|evs|, i requires 0 <= i < |evs| => Arrival(evs[i], false)))
      case Err(f) => Err(f);
    var bridged := Listen(start, Annotate(false, inputs), ExitsSearch, false);
    Classify(RawOf(bridged.items), bridged.ending)
  }

  lemma AnnotateArrive(stopRequested: bool, inputs: seq<Input>)
    requires inputs != [] && inputs[0].Arrive?
    ensures var xs := Annotate(stopRequested, inputs);
            xs != [] && xs[0] == Arrival(inputs[0].event, stopRequested)
            && xs[1..] == Annotate(stopRequested, inputs[1..])
  {
    var xs := Annotate(stopRequested, inputs);
    assert xs == [Arrival(inputs[0].event, stopRequested)] + Annotate(stopRequested, inputs[1..]);
  }

  /** An arrival that does not end the search is passed on, ahead of the rest. */
  lemma ScanPasses(xs: seq<Arrival>)
    requires xs != [] && !ExitsSearch(xs[0])
    ensures var raw := RawOf(Scan(xs, ExitsSearch, false).items);
            var tail := Scan(xs[1..], ExitsSearch, false);
            raw != [] && raw[0] == xs[0].event && raw[1..] == RawOf(tail.items)
            && Scan(xs, ExitsSearch, false).ending == tail.ending
  {
    var tail := Scan(xs[1..], ExitsSearch, false);
    assert Scan(xs, ExitsSearch, false).items == [xs[0]] + tail.items;
    assert RawOf([xs[0]] + tail.items)[1..] == RawOf(tail.items);
  }

  /** The open flow agrees with the bridge's scan over the annotated inputs, classified. */
  predicate FeedMatchesScan(api: Api, inputs: seq<Input>) {
    var bridged := Scan(Annotate(api.stopRequested, inputs), ExitsSearch, false);
    var r := Feed(api, inputs);
    Stream(r.events, r.ending) == Classify(RawOf(bridged.items), bridged.ending)
  }

  /** A broadcast that does not end the search keeps the agreement of the rest. */
  lemma PassedMatches(api: Api, inputs: seq<Input>)
    requires inputs != [] && inputs[0].Arrive? && !IsEndOfSearch(inputs[0].event, api.stopRequested)
    requires FeedMatchesScan(api, inputs[1..])
    ensures FeedMatchesScan(api, inputs)
  {
    var e := inputs[0].event;
    AnnotateArrive(api.stopRequested, inputs);
    ScanPasses(Annotate(api.stopRequested, inputs));
    var tail := Scan(Annotate(api.stopRequested, inputs[1..]), ExitsSearch, false);
    var raw := RawOf(Scan(Annotate(api.stopRequested, inputs), ExitsSearch, false).items);
    match Extract(e).out
    case Err(f) =>
      assert Classify(raw, tail.ending) == Stream([], Failed(f));
    case Ok(None) =>
      assert Classify(raw, tail.ending) == Classify(RawOf(tail.items), tail.ending);
    case Ok(Some(ev)) =>
      var c := Classify(RawOf(tail.items), tail.ending);
      assert Classify(raw, tail.ending) == Stream([ev] + c.items, c.ending);
  }

  /** The broadcast that ends the search completes both sides with nothing emitted. */
  lemma EndMatches(api: Api, inputs: seq<Input>)
    requires inputs != [] && inputs[0].Arrive? && IsEndOfSearch(inputs[0].event, api.stopRequested)
    ensures FeedMatchesScan(api, inputs)
  {
    AnnotateArrive(api.stopRequested, inputs);
  }

  lemma {:induction false} FeedIsScan(api: Api, inputs: seq<Input>)
    ensures var bridged := Scan(Annotate(api.stopRequested, inputs), ExitsSearch, false);
            var r := Feed(api, inputs);
            Stream(r.events, r.ending) == Classify(RawOf(bridged.items), bridged.ending)
    decreases |inputs|
  {
    if inputs != [] {
      match inputs[0]
      case StopCall =>
        FeedIsScan(Api(true), inputs[1..]);
      case Arrive(e) =>
        if IsEndOfSearch(e, api.stopRequested) {
          EndMatches(api, inputs);
        } else {
          FeedIsScan(api, inputs[1..]);
          PassedMatches(api, inputs);
        }
    }
  }

  /** The step-by-step session emits exactly what the composed flow emits. */
  lemma SearchIsPipeline(api: Api, inputs: seq<Input>)
    ensures Stream(Search(api, inputs).events, Search(api, inputs).ending) == Pipeline(inputs)
  {
    FeedIsScan(Api(false), inputs);
    assert [] + Annotate(false, inputs) == Annotate(false, inputs);
  }

  // ---------------------------------------------------------------------
  // Properties of a session.

  /** Number of discovery-finished broadcasts among the inputs. */
  function Finishes(inputs: seq<Input>): nat {
    if inputs == [] then 0
    else (if inputs[0].Arrive? && inputs[0].event.action == DiscoveryFinished then 1 else 0) + Finishes(inputs[1..])
  }

  /** Every found-device broadcast carries its device, as the platform sends them. */
  predicate WellFormed(inputs: seq<Input>) {
    forall i :: 0 <= i < |inputs| && inputs[i].Arrive? && inputs[i].event.action == DeviceFound ==>
      inputs[i].event.device.Some?
  }

  /** Sessions compose: while the flow is open, feeding `pre + post` is feeding `pre`, then `post`. */
  lemma {:induction false} FeedAppend(api: Api, pre: seq<Input>, post: seq<Input>)
    requires Feed(api, pre).ending == Pending
    ensures var a := Feed(api, pre);
            var b := Feed(a.api, post);
            Feed(api, pre + post) == Run(a.events + b.events, b.ending, a.effects + b.effects, b.api)
    decreases |pre|
  {
    if pre == [] {
      assert pre + post == post;
      var b := Feed(api, post);
      assert [] + b.events == b.events && [] + b.effects == b.effects;
    } else {
      var xs := pre + post;
      assert xs[0] == pre[0] && xs[1..] == pre[1..] + post;
      var o := Step(api, pre[0]);
      assert o.closed.None?;
      var a' := Feed(o.api, pre[1..]);
      FeedAppend(o.api, pre[1..], post);
      var b := Feed(a'.api, post);
      AppendAssoc(o.events, a'.events, b.events);
      AppendAssoc(o.effects, a'.effects, b.effects);
    }
  }

  /** Without a stop the flow never completes, and every finished cycle restarts discovery. */
  lemma {:induction false} KeepsSearchingWithoutStop(api: Api, inputs: seq<Input>)
    requires !api.stopRequested && Stops(inputs) == 0 && WellFormed(inputs)
    ensures Feed(api, inputs).ending == Pending
    ensures Count(StartDiscovery, Feed(api, inputs).effects) == Finishes(inputs)
    decreases |inputs|
  {
    if inputs != [] {
      assert WellFormed(inputs[1..]) by {
        forall i | 0 <= i < |inputs[1..]| ensures inputs[1..][i] == inputs[i + 1] { }
      }
      var e := inputs[0].event;
      var c := Extract(e);
      KeepsSearchingWithoutStop(api, inputs[1..]);
      CountAppend(StartDiscovery, c.effects, Feed(api, inputs[1..]).effects);
    }
  }

  /** A session without stop calls keeps discovering: one start, plus one restart per finished cycle. */
  lemma SearchKeepsSearchingWithoutStop(api: Api, inputs: seq<Input>)
    requires Stops(inputs) == 0 && WellFormed(inputs)
    ensures Search(api, inputs).ending == Pending
    ensures Count(StartDiscovery, Search(api, inputs).effects) == 1 + Finishes(inputs)
  {
    KeepsSearchingWithoutStop(Api(false), inputs);
    CountAppend(StartDiscovery, [StartDiscovery], Feed(Api(false), inputs).effects);
  }

  /** A `stop()` issued before `search()` does not end the new session. */
  lemma StopBeforeSearchDoesNotEnd(api: Api, inputs: seq<Input>)
    requires Stops(inputs) == 0 && WellFormed(inputs)
    ensures Search(Stop(api).api, inputs).ending == Pending
  {
    SearchKeepsSearchingWithoutStop(Stop(api).api, inputs);
  }

  /** From an open flow, `stop()` then a finished cycle completes it with nothing emitted or restarted. */
  lemma StopThenFinishFeed(api: Api, finished: RawEvent, post: seq<Input>)
    requires finished.action == DiscoveryFinished
    ensures var b := Feed(api, [StopCall, Arrive(finished)] + post);
            b.events == [] && b.ending == Completed && Count(StartDiscovery, b.effects) == 0
  {
    var tail := [StopCall, Arrive(finished)] + post;
    assert tail[0] == StopCall && tail[1..] == [Arrive(finished)] + post;
    assert tail[1..][0] == Arrive(finished) && tail[1..][1..] == post;
    var d := Drain(Api(true), post, Completed);
    assert Feed(api, tail).effects == [CancelDiscovery] + d.effects;
    CountAbsent(StartDiscovery, d.effects);
    CountAppend(StartDiscovery, [CancelDiscovery], d.effects);
  }

  /** A stop followed by a finished cycle completes the flow; that cycle is neither emitted nor restarted. */
  lemma StopThenFinishCompletes(api: Api, pre: seq<Input>, finished: RawEvent, post: seq<Input>)
    requires Feed(Api(false), pre).ending == Pending
    requires finished.action == DiscoveryFinished
    ensures var r := Search(api, pre + [StopCall, Arrive(finished)] + post);
            r.ending == Completed
            && r.events == Search(api, pre).events
            && Count(StartDiscovery, r.effects) == Count(StartDiscovery, Search(api, pre).effects)
  {
    var tail := [StopCall, Arrive(finished)] + post;
    AppendAssoc(pre, [StopCall, Arrive(finished)], post);
    FeedAppend(Api(false), pre, tail);
    var a := Feed(Api(false), pre);
    var b := Feed(a.api, tail);
    StopThenFinishFeed(a.api, finished, post);
    CountAppend(StartDiscovery, a.effects, b.effects);
    CountAppend(StartDiscovery, [StartDiscovery], a.effects);
    CountAppend(StartDiscovery, [StartDiscovery], a.effects + b.effects);
    assert a.events + [] == a.events;
  }

  /** The flow completes only at a finished cycle that some earlier `stop()` call preceded. */
  lemma {:induction false} CompletesOnlyAfterStop(api: Api, inputs: seq<Input>)
    requires Feed(api, inputs).ending == Completed
    ensures exists j :: 0 <= j < |inputs| && inputs[j].Arrive? && inputs[j].event.action == DiscoveryFinished
              && (api.stopRequested || exists i :: 0 <= i < j && inputs[i] == StopCall)
    decreases |inputs|
  {
    match inputs[0]
    case StopCall =>
      CompletesOnlyAfterStop(Api(true), inputs[1..]);
      var j :| 0 <= j < |inputs[1..]| && inputs[1..][j].Arrive? && inputs[1..][j].event.action == DiscoveryFinished;
      assert inputs[j + 1] == inputs[1..][j] && inputs[0] == StopCall;
    case Arrive(e) =>
      if !IsEndOfSearch(e, api.stopRequested) {
        CompletesOnlyAfterStop(api, inputs[1..]);
        var j :| 0 <= j < |inputs[1..]| && inputs[1..][j].Arrive? && inputs[1..][j].event.action == DiscoveryFinished
                 && (api.stopRequested || exists i :: 0 <= i < j && inputs[1..][i] == StopCall);
        assert inputs[j + 1] == inputs[1..][j];
        if !api.stopRequested {
          var i :| 0 <= i < j && inputs[1..][i] == StopCall;
          assert inputs[i + 1] == StopCall;
        }
      }
  }

  /** `search()` completes only after a `stop()` call made during the session. */
  lemma SearchCompletesOnlyAfterStop(api: Api, inputs: seq<Input>)
    requires Search(api, inputs).ending == Completed
    ensures exists i, j :: 0 <= i < j < |inputs| && inputs[i] == StopCall
              && inputs[j].Arrive? && inputs[j].event.action == DiscoveryFinished
  {
    CompletesOnlyAfterStop(Api(false), inputs);
  }
}
