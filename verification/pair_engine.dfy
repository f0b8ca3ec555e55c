/** `PairEngine`: power-cycles the radio before pairing, and relays the request's notifications. */
module PairEngine {
  import opened Common
  import opened Events
  import PairApi

  /** `PairEngine.pair(address)`: the power cycle, then the API's flow unchanged. */
  function Pair(radioOn: bool, address: Address, remote: PairApi.Remote, incoming: seq<RawEvent>): (r: PairApi.Run)
    ensures var k := |ResetRadio(radioOn)|;
            k <= |r.effects| && r.effects[..k] == ResetRadio(radioOn)
            && forall j :: k <= j < |r.effects| ==> r.effects[j] == PairCall(Handle(address)) || r.effects[j] == CancelPairRequest
    ensures RadioAfter(radioOn, r.effects)
    ensures r.events == PairApi.Pair(address, remote, incoming).events
    ensures r.ending == PairApi.Pair(address, remote, incoming).ending
  {
    var reset := ResetRadio(radioOn);
    var p := PairApi.Pair(address, remote, incoming);
    PairApi.PairCalls(address, remote, incoming);
    assert (reset + p.effects)[..|reset|] == reset;
    PowerUnchanged(true, p.effects);
    RadioAfterAppend(radioOn, reset, p.effects);
    p.(effects := reset + p.effects)
  }

  /** `notifyTimeout(address)`: the API's timeout broadcast for that address. */
  function NotifyTimeout(address: Address): (e: RawEvent)
    ensures e.action == PairingTimeout && e.device == Some(Handle(address)) && PairApi.Subscribed(e)
  {
    PairApi.TimeoutMessage(address)
  }

  /** `notifyError(address)`: the API's failure broadcast for that address. */
  function NotifyError(address: Address): (e: RawEvent)
    ensures e.action == PairingFailed && e.device == Some(Handle(address)) && PairApi.Subscribed(e)
  {
    PairApi.ErrorMessage(address)
  }

  /**
    A timeout notification reaches the open flow it concerns and fails it
    with a pairing timeout, after asking the pairing system to cancel.
  */
  lemma NotifiedTimeoutFails(radioOn: bool, address: Address, remote: PairApi.Remote, pre: seq<RawEvent>, post: seq<RawEvent>)
    requires PairApi.Pair(address, remote, pre).ending == Pending
    ensures var a := Pair(radioOn, address, remote, pre);
            var r := Pair(radioOn, address, remote, pre + [NotifyTimeout(address)] + post);
            r.events == a.events && r.ending == Failed(DevicePairingTimeout)
            && r.effects == a.effects + [CancelPairRequest]
  {
    PairApi.TimeoutBroadcastFails(address, remote, pre, NotifyTimeout(address), post);
    var reset := ResetRadio(radioOn);
    AppendAssoc(reset, PairApi.Pair(address, remote, pre).effects, [CancelPairRequest]);
  }

  /** An error notification reaches the open flow it concerns and fails it as a failed pairing. */
  lemma NotifiedErrorFails(radioOn: bool, address: Address, remote: PairApi.Remote, pre: seq<RawEvent>, post: seq<RawEvent>)
    requires PairApi.Pair(address, remote, pre).ending == Pending
    ensures var a := Pair(radioOn, address, remote, pre);
            var r := Pair(radioOn, address, remote, pre + [NotifyError(address)] + post);
            r.events == a.events && r.ending == Failed(DevicePairingFailed) && r.effects == a.effects
  {
    PairApi.ErrorBroadcastFails(address, remote, pre, NotifyError(address), post);
  }
}
