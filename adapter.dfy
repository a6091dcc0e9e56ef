/** The adapter object: its one mutable scheduling field `timeout`, the
    host's table of pending timers, the store it mirrors the summary into,
    and the configured password. Remote calls are replaced by their
    outcomes, given as parameters. */
module Adapter {
  import opened Values
  import opened Credential
  import opened Schema
  import opened Store

  /** A pending `setTimeout(pollStatusFromBlinkServers, delay, scope, intsecs)`. */
  datatype Timer = Timer(delay: int, intsecs: int)

  /** What the remote calls of one polling cycle do. */
  datatype PollOutcome =
    | SetupRejected       // `setupSystem()` rejects
    | SummaryRejected     // `setupSystem()` resolves, `getSummary()` rejects
    | SummaryFetched(summary: Summary, rejectedCreates: set<string>)
        // both resolve; the creates at `rejectedCreates` reject

  /** The scheduling invariant: every pending timer is the one `timeout`
      holds. After a timer fires, `timeout` may still hold its handle while
      nothing is pending. */
  predicate TimerInvariant(timeout: Option<nat>, timers: map<nat, Timer>) {
    if timeout.None? then timers == map[] else timers.Keys <= {timeout.value}
  }

  /** What one polling cycle does to the store: nothing unless the summary
      was fetched; then the creates are resolved, and the values are written
      only when every create resolved. */
  predicate StoreAfterPoll(objects: Objects, states: States, outcome: PollOutcome,
                           objects': Objects, states': States)
    requires outcome.SummaryFetched? ==> Named(outcome.summary)
  {
    if outcome.SummaryFetched? then
      var s := outcome.summary;
      && objects' == ApplyCreates(objects, Declarations(s), outcome.rejectedCreates)
      && states' == if AllCreated(Declarations(s), outcome.rejectedCreates)
                    then ApplyWrites(states, Entries(s))
                    else states
    else objects' == objects && states' == states
  }

  /** Under the scheduling invariant at most one timer is pending, so at
      most one polling chain is alive. */
  lemma AtMostOnePending(timeout: Option<nat>, timers: map<nat, Timer>)
    requires TimerInvariant(timeout, timers)
    ensures |timers| <= 1
    ensures timers != map[] ==> timeout.Some? && timers.Keys == {timeout.value}
  {
    if timeout.Some? && timers != map[] {
      var h :| h in timers;
      assert timers.Keys == {timeout.value};
    }
  }

  class Blink4home {
    /** `this.config.password`. */
    var password: JsString
    /** `this.timeout`: the handle of the last armed poll timer, or `null`. */
    var timeout: Option<nat>
    /** The host's pending timers, by handle. */
    var timers: map<nat, Timer>
    /** The handle the host gives the next timer. */
    var nextHandle: nat
    /** The store's object declarations and state values, by path. */
    var objects: Objects
    var states: States

    ghost predicate Valid()
      reads this
    {
      && TimerInvariant(timeout, timers)
      && (forall h :: h in timers ==> h < nextHandle)
    }

    /** The constructor: no timer yet; the password is still the stored,
        obfuscated one until `SetupEncryption` runs. */
    constructor (storedPassword: JsString, existingObjects: Objects, existingStates: States)
      ensures Valid()
      ensures password == storedPassword && timeout == None && timers == map[]
      ensures objects == existingObjects && states == existingStates
    {
      password := storedPassword;
      timeout := None;
      timers := map[];
      nextHandle := 0;
      objects := existingObjects;
      states := existingStates;
    }

    /** The `system.config` callback of the constructor: decrypts the
        password with the system secret if there is one, else with the
        fallback key. `secret` is `None` when the object, its `native` part
        or its `secret` is missing. */
    method SetupEncryption(secret: Option<JsString>)
      modifies this`password
      ensures password == Decrypted(ChooseKey(secret), old(password))
    {
      if secret.Some? && secret.value != [] {
        password := Decrypt(secret.value, password);
      } else {
        password := Decrypt(FallbackKey, password);
      }
    }

    /** The host's `clearTimeout(h)`: a no-op when `h` is no longer pending. */
    method ClearTimeout(h: nat)
      modifies this`timers
      ensures timers == old(timers) - {h}
    {
      timers := timers - {h};
    }

    /** The host's `setTimeout`: registers a timer under a fresh handle. */
    method SetTimeout(delay: int, intsecs: int) returns (h: nat)
      modifies this`timers, this`nextHandle
      ensures h == old(nextHandle) && nextHandle == h + 1
      ensures timers == old(timers)[h := Timer(delay, intsecs)]
    {
      h := nextHandle;
      timers := timers[h := Timer(delay, intsecs)];
      nextHandle := nextHandle + 1;
    }

    /** The reschedule step shared by every branch of the poll: clear the
        timer `timeout` holds, then arm a new one for `intsecs` seconds that
        polls again with the same interval. */
    method Reschedule(intsecs: int)
      requires Valid()
      modifies this`timeout, this`timers, this`nextHandle
      ensures Valid()
      ensures timeout == Some(old(nextHandle))
      ensures timers == map[old(nextHandle) := Timer(intsecs * 1000, intsecs)]
    {
      if timeout.Some? {
        ClearTimeout(timeout.value);
      }
      var h := SetTimeout(intsecs * 1000, intsecs);
      timeout := Some(h);
    }

    /** The store's `setState(id, val, ack)`. */
    method SetState(id: string, val: Value, ack: bool)
      modifies this`states
      ensures states == old(states)[id := State(Some(val), ack)]
    {
      states := states[id := State(Some(val), ack)];
    }

    /** The inner loop of `updateStatesFromSummary` over one object's
        attributes: writes each value to `prefix + key`, acknowledged.
        `written` and `done` are the states before the walk and the entries
        already written. */
    method WriteEntity(prefix: string, attrs: Attrs, ghost written: States, ghost done: seq<Entry>)
      requires states == ApplyWrites(written, done)
      modifies this`states
      ensures states == ApplyWrites(written, done + EntityEntries(prefix, attrs))
    {
      ghost var sofar := done;
      var k := 0;
      while k < |attrs|
        invariant 0 <= k <= |attrs|
        invariant sofar == done + EntityEntries(prefix, attrs[..k])
        invariant states == ApplyWrites(written, sofar)
      {
        SetState(prefix + attrs[k].key, attrs[k].val, true);
        EntityEntriesSnoc(prefix, attrs, k);
        ghost var e := AttrEntry(prefix, attrs[k]);
        ApplyWritesSnoc(written, sofar, e);
        sofar := sofar + [e];
        k := k + 1;
      }
      assert attrs[..k] == attrs;
    }

    /** The outer loop of `updateStatesFromSummary` over the devices: writes
        each device's attributes under `<network>.<device name>.`, device by
        device in list order. */
    method WriteDevices(network: string, devices: seq<Attrs>)
      requires AllNamed(devices)
      modifies this`states
      ensures states == ApplyWrites(old(states), DeviceEntries(network, devices))
    {
      ghost var base := states;
      var j := 0;
      while j < |devices|
        invariant 0 <= j <= |devices|
        invariant states == ApplyWrites(base, DeviceEntries(network, devices[..j]))
      {
        var device := devices[j];
        WriteEntity(DevicePrefix(network, device), device, base, DeviceEntries(network, devices[..j]));
        DeviceEntriesSnoc(network, devices, j);
        j := j + 1;
      }
      assert devices[..j] == devices;
    }

    /** `updateStatesFromSummary`: writes every attribute's value to its
        path, acknowledged, network attributes first, then device by device. */
    method UpdateStatesFromSummary(summary: Summary)
      requires Named(summary)
      modifies this`states
      ensures states == ApplyWrites(old(states), Entries(summary))
    {
      var network := NameOf(summary.network);
      ghost var networkDone := EntityEntries(network + ".", summary.network);
      assert [] + networkDone == networkDone;
      WriteEntity(network + ".", summary.network, states, []);
      WriteDevices(network, summary.devices);
      ApplyWritesAppend(old(states), networkDone, DeviceEntries(network, summary.devices));
    }

    /** `pollStatusFromBlinkServers(scope, intsecs)`: one polling cycle.
        A rejected `setupSystem` has no handler, so the cycle ends without
        arming a timer. Otherwise the cycle always ends by clearing the old
        timer and arming exactly one new one; the summary's values are
        written only when every create resolved. */
    method PollStatusFromBlinkServers(intsecs: int, outcome: PollOutcome)
      requires Valid()
      requires outcome.SummaryFetched? ==> Named(outcome.summary)
      modifies this`timeout, this`timers, this`nextHandle, this`objects, this`states
      ensures Valid()
      ensures outcome.SetupRejected? ==>
        && timeout == old(timeout) && timers == old(timers) && nextHandle == old(nextHandle)
        && objects == old(objects) && states == old(states)
      ensures !outcome.SetupRejected? ==>
        && timeout == Some(old(nextHandle))
        && timers == map[old(nextHandle) := Timer(intsecs * 1000, intsecs)]
      ensures StoreAfterPoll(old(objects), old(states), outcome, objects, states)
    {
      match outcome
      case SetupRejected =>
      case SummaryRejected =>
        Reschedule(intsecs);
      case SummaryFetched(summary, rejected) =>
        var promises := CreateStateObjects(summary);
        objects := ApplyCreates(objects, promises, rejected);
        if AllCreated(promises, rejected) {
          UpdateStatesFromSummary(summary);
        }
        Reschedule(intsecs);
    }

    /** The host fires pending timer `h`: the timer leaves the table and the
        poll runs with the interval it was armed with. A cycle whose
        `setupSystem` rejects leaves no timer pending, and polling stops. */
    method FireTimer(h: nat, outcome: PollOutcome)
      requires Valid() && h in timers
      requires outcome.SummaryFetched? ==> Named(outcome.summary)
      modifies this`timeout, this`timers, this`nextHandle, this`objects, this`states
      ensures Valid()
      ensures outcome.SetupRejected? ==> timeout == old(timeout) && timers == map[] && nextHandle == old(nextHandle)
      ensures !outcome.SetupRejected? ==> timeout == Some(old(nextHandle))
      ensures StoreAfterPoll(old(objects), old(states), outcome, objects, states)
      ensures !outcome.SetupRejected? ==>
        timers == map[old(nextHandle) := Timer(old(timers)[h].intsecs * 1000, old(timers)[h].intsecs)]
    {
      var intsecs := timers[h].intsecs;
      timers := timers - {h};
      AtMostOnePending(timeout, old(timers));
      PollStatusFromBlinkServers(intsecs, outcome);
    }

    /** `onAdapterStop(callback)`: clears the pending timer and calls the
        callback; should the callback throw, the catch branch calls it once
        more. */
    method OnAdapterStop(callbackThrows: bool) returns (callbackCalls: nat)
      requires Valid()
      modifies this`timers
      ensures Valid()
      ensures timers == map[]
      ensures callbackCalls == if callbackThrows then 2 else 1
    {
      if timeout.Some? {
        ClearTimeout(timeout.value);
      }
      callbackCalls := 1;
      if callbackThrows {
        callbackCalls := callbackCalls + 1;
      }
    }
  }
}
