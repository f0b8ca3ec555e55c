/**
  The vocabulary shared by both pipelines: platform broadcasts as immutable
  records, the side effects the core performs on its collaborators, and the
  finite prefix of a Kotlin flow as a sequence of items plus how it ended.
*/
module Events {
  import opened Common

  type Address = string

  /** A `BluetoothDevice` handle; the core only ever reads its address. */
  datatype Handle = Handle(address: Address)

  /** The broadcast actions the core subscribes to or synthesises. */
  datatype Action =
    | DiscoveryStarted      // BluetoothAdapter.ACTION_DISCOVERY_STARTED
    | DiscoveryFinished     // BluetoothAdapter.ACTION_DISCOVERY_FINISHED
    | DeviceFound           // BluetoothDevice.ACTION_FOUND
    | BondStateChanged      // BluetoothDevice.ACTION_BOND_STATE_CHANGED
    | AclConnected          // BluetoothDevice.ACTION_ACL_CONNECTED
    | AclDisconnected       // BluetoothDevice.ACTION_ACL_DISCONNECTED
    | PairingRequest        // PairApi.ACTION_FAKE_PAIR_REQUEST
    | PairingStarted        // PairApi.ACTION_PAIRING_STARTED (synthetic)
    | PairingFailed         // PairApi.ACTION_PAIRING_FAILED (loopback)
    | PairingTimeout        // PairApi.ACTION_PAIRING_TIMEOUT (loopback)
    | OtherAction(name: string)

  /** Values of `BluetoothDevice.EXTRA_BOND_STATE`. */
  const BOND_NONE: int := 10
  const BOND_BONDING: int := 11
  const BOND_BONDED: int := 12

  /** An `Intent` with the extras the core reads; an absent extra is `None`. */
  datatype RawEvent = RawEvent(
    action: Action,
    device: Option<Handle>,   // EXTRA_DEVICE
    name: Option<string>,     // EXTRA_NAME
    rssi: Option<Short>,      // EXTRA_RSSI
    bondState: Option<int>)   // EXTRA_BOND_STATE

  /** `intent.getIntExtra(EXTRA_BOND_STATE, -1)`. */
  function BondStateOf(e: RawEvent): int {
    e.bondState.GetOr(-1)
  }

  /** A broadcast that carries only an action and a device. */
  function DeviceEvent(action: Action, device: Handle): (e: RawEvent)
    ensures e.action == action && e.device == Some(device) && BondStateOf(e) == -1
  {
    RawEvent(action, Some(device), None, None, None)
  }

  /** The exceptions that end a flow. */
  datatype Failure =
    | DevicePairingFailed
    | DevicePairingTimeout
    | NullDevice            // a missing EXTRA_DEVICE cast to a non-null type

  /** How the observed prefix of a flow ended. */
  datatype Ending =
    | Pending               // still open when the input ran out
    | Completed             // completed normally
    | Failed(failure: Failure)
    | Cancelled             // abandoned by its collector

  /** The items a flow emitted and how it ended. */
  datatype Stream<+T> = Stream(items: seq<T>, ending: Ending)

  /** One call on a collaborator; a run of the core yields a trace of them. */
  datatype Effect =
    | StartDiscovery                      // adapter.startDiscovery()
    | CancelDiscovery                     // adapter.cancelDiscovery()
    | TurnOn                              // BluetoothApi.turnBluetoothOn()
    | TurnOff                             // BluetoothApi.turnBluetoothOff()
    | PairCall(device: Handle)            // PairingSystem.pair(device)
    | CancelPairRequest                   // PairingSystem.cancelPairRequest(context)
    | NotifyError(address: Address)       // PairEngine.notifyError(address)
    | NotifyTimeout(address: Address)     // PairEngine.notifyTimeout(address)
    | CountForSeconds(id: nat, seconds: int)  // Timer.countForSeconds; id numbers the operation
    | ResetTime(id: nat)                  // TimerOperation.resetTime()
    | TimerCancel(id: nat)                // Timer.cancel(operation)

  /** The radio state a sequence of power effects leaves behind. */
  function RadioAfter(on: bool, trace: seq<Effect>): bool
    decreases |trace|
  {
    if trace == [] then on
    else RadioAfter(if trace[0] == TurnOn then true else if trace[0] == TurnOff then false else on, trace[1..])
  }

  lemma {:induction false} PowerUnchanged(on: bool, t: seq<Effect>)
    requires forall i :: 0 <= i < |t| ==> t[i] != TurnOn && t[i] != TurnOff
    ensures RadioAfter(on, t) == on
    decreases |t|
  {
    if t != [] {
      PowerUnchanged(on, t[1..]);
    }
  }

  lemma {:induction false} RadioAfterAppend(on: bool, a: seq<Effect>, b: seq<Effect>)
    ensures RadioAfter(on, a + b) == RadioAfter(RadioAfter(on, a), b)
    decreases |a|
  {
    if a == [] {
      assert a + b == b;
    } else {
      assert (a + b)[0] == a[0] && (a + b)[1..] == a[1..] + b;
      RadioAfterAppend(if a[0] == TurnOn then true else if a[0] == TurnOff then false else on, a[1..], b);
    }
  }

  /** The power cycle both engines run first: turn on if off; turn off, then on, if on. */
  function ResetRadio(radioOn: bool): (t: seq<Effect>)
    ensures |t| >= 1 && t[|t| - 1] == TurnOn && RadioAfter(radioOn, t)
    ensures Count(TurnOn, t) == 1 && Count(TurnOff, t) == (if radioOn then 1 else 0)
    ensures radioOn ==> t[0] == TurnOff
  {
    if radioOn then [TurnOff, TurnOn] else [TurnOn]
  }

  /** Number of timer operations armed along a trace. */
  function Arms(t: seq<Effect>): nat
    decreases |t|
  {
    if t == [] then 0 else (if t[0].CountForSeconds? then 1 else 0) + Arms(t[1..])
  }

  lemma {:induction false} NoArms(t: seq<Effect>)
    requires forall i :: 0 <= i < |t| ==> !t[i].CountForSeconds?
    ensures Arms(t) == 0
    decreases |t|
  {
    if t != [] {
      assert forall i :: 0 <= i < |t[1..]| ==> t[1..][i] == t[i + 1];
      NoArms(t[1..]);
    }
  }

  lemma {:induction false} ArmsAppend(a: seq<Effect>, b: seq<Effect>)
    ensures Arms(a + b) == Arms(a) + Arms(b)
    decreases |a|
  {
    if a == [] {
      assert a + b == b;
    } else {
      assert (a + b)[0] == a[0] && (a + b)[1..] == a[1..] + b;
      ArmsAppend(a[1..], b);
    }
  }
}
