/** The command relay: a state change the user made (not acknowledged)
    on a network's `armed` state or on a camera's `enabled` state becomes a
    command for the cloud service. */
module Relay {
  import opened Values
  import opened Paths
  import opened Schema

  /** What `onStateChange` does with one notification. */
  datatype Command =
    | Deleted      // the state was deleted: only reported
    | Ignored      // an acknowledged echo of our own write, or a path the relay does not handle
    | ArmNetwork(network: string, val: Option<Value>, wording: string)
        // `setupSystem(network)` then `setArmed(val)`; `wording` is how the action is logged
    | SetMotionDetect(camera: string, val: Option<Value>)
        // `getCameras(camera)` then `setMotionDetect(val)`

  /** `onStateChange(id, state)`: routes on the dot-split id and on the
      state's `ack` and `val`. */
  function OnStateChange(id: string, state: Option<State>): (c: Command)
    ensures c.Deleted? <==> state.None?
    ensures state.Some? && state.value.ack ==> c.Ignored?
    ensures c.ArmNetwork? <==>
      state.Some? && !state.value.ack && |Split(id)| == 4 && Split(id)[3] == "armed"
    ensures c.ArmNetwork? ==>
      && c.network == Split(id)[2]
      && c.val == state.value.val
      && (c.wording == "armed" <==> c.val == Some(Bool(true)))
      && (c.wording == "armed" || c.wording == "disarmed")
    ensures c.SetMotionDetect? <==>
      state.Some? && !state.value.ack && |Split(id)| == 5 && Split(id)[4] == "enabled"
    ensures c.SetMotionDetect? ==> c.camera == Split(id)[3] && c.val == state.value.val
  {
    if state.None? then Deleted
    else if state.value.ack then Ignored
    else
      var idsplit := Split(id);
      var statename := idsplit[|idsplit| - 1];
      if |idsplit| == 4 && statename == "armed" then
        var wording := if state.value.val == Some(Bool(true)) then "armed" else "disarmed";
        ArmNetwork(idsplit[|idsplit| - 2], state.value.val, wording)
      else if |idsplit| == 5 && statename == "enabled" then
        SetMotionDetect(idsplit[|idsplit| - 2], state.value.val)
      else Ignored
  }

  /** The full id of a state of adapter instance `adapter.instance`. */
  function FullId(adapter: string, instance: string, path: string): (id: string) {
    adapter + "." + instance + "." + path
  }

  lemma SplitFullId(adapter: string, instance: string, path: string)
    requires DotFree(adapter) && DotFree(instance)
    ensures Split(FullId(adapter, instance, path)) == [adapter, instance] + Split(path)
  {
    assert FullId(adapter, instance, path) == adapter + "." + (instance + "." + path);
    SplitCons(adapter, instance + "." + path);
    SplitCons(instance, path);
  }

  /** On the states the adapter mirrors, a user change is relayed exactly
      when it is the network's `armed` state, which arms or disarms that
      network, or a device's `enabled` state, which toggles motion detection
      of that device; every other mirrored state is ignored. */
  lemma RelayOnMirroredStates(adapter: string, instance: string, s: Summary, i: nat, v: Option<Value>)
    requires DotFree(adapter) && DotFree(instance)
    requires WellFormed(s) && i < |Entries(s)|
    ensures var c := OnStateChange(FullId(adapter, instance, Entries(s)[i].path), Some(State(v, false)));
      && (c.ArmNetwork? <==> i < |s.network| && Entries(s)[i].key == "armed")
      && (c.ArmNetwork? ==> c.network == NameOf(s.network) && c.val == v)
      && (c.SetMotionDetect? <==> i >= |s.network| && Entries(s)[i].key == "enabled")
      && (c.SetMotionDetect? ==>
            && c.val == v
            && exists j :: 0 <= j < |s.devices| && c.camera == NameOf(s.devices[j])
                           && Attr("enabled", Entries(s)[i].val) in s.devices[j])
      && (c.Ignored? || c.ArmNetwork? || c.SetMotionDetect?)
  {
    var m := |s.network|;
    if i < m {
      NetworkEntrySegments(adapter, instance, s, i);
    } else {
      var j := DeviceEntrySegments(adapter, instance, s, i);
    }
  }

  /** The full id of a network attribute's state has four segments, the
      third the network name and the last the attribute's key. */
  lemma NetworkEntrySegments(adapter: string, instance: string, s: Summary, i: nat)
    requires DotFree(adapter) && DotFree(instance)
    requires WellFormed(s) && i < |s.network| && i < |Entries(s)|
    ensures Split(FullId(adapter, instance, Entries(s)[i].path))
         == [adapter, instance, NameOf(s.network), Entries(s)[i].key]
  {
    SplitFullId(adapter, instance, Entries(s)[i].path);
    NetworkPathSegments(s, i);
  }

  /** The full id of a device attribute's state has five segments, the
      fourth the name of the device `j` it belongs to and the last the
      attribute's key. */
  lemma DeviceEntrySegments(adapter: string, instance: string, s: Summary, i: nat) returns (j: nat)
    requires DotFree(adapter) && DotFree(instance)
    requires WellFormed(s) && |s.network| <= i < |Entries(s)|
    ensures j < |s.devices|
    ensures Split(FullId(adapter, instance, Entries(s)[i].path))
         == [adapter, instance, NameOf(s.network), NameOf(s.devices[j]), Entries(s)[i].key]
    ensures Attr(Entries(s)[i].key, Entries(s)[i].val) in s.devices[j]
  {
    SplitFullId(adapter, instance, Entries(s)[i].path);
    var k;
    j, k := DeviceEntryOwner(NameOf(s.network), s.devices, i - |s.network|);
    DevicePathSegments(s, j, k);
    assert s.devices[j][k] in s.devices[j];
  }

  /** A user change on `<adapter>.<instance>.<network>.armed` arms the
      network when the value is `true` and disarms it otherwise. */
  lemma ArmRouting(adapter: string, instance: string, network: string, v: Option<Value>)
    requires DotFree(adapter) && DotFree(instance) && DotFree(network)
    ensures OnStateChange(FullId(adapter, instance, network + "." + "armed"), Some(State(v, false)))
         == ArmNetwork(network, v, if v == Some(Bool(true)) then "armed" else "disarmed")
  {
    SplitFullId(adapter, instance, network + "." + "armed");
    SplitCons(network, "armed");
    SplitDotFree("armed");
  }

  /** A user change on `<adapter>.<instance>.<network>.<camera>.enabled`
      toggles motion detection of that camera. */
  lemma MotionRouting(adapter: string, instance: string, network: string, camera: string, v: Option<Value>)
    requires DotFree(adapter) && DotFree(instance) && DotFree(network) && DotFree(camera)
    ensures OnStateChange(FullId(adapter, instance, network + "." + camera + "." + "enabled"), Some(State(v, false)))
         == SetMotionDetect(camera, v)
  {
    var path := network + "." + camera + "." + "enabled";
    SplitThree(network, camera, "enabled");
    SplitFullId(adapter, instance, path);
  }

  /** An `armed` id of three segments is too short for the arm branch. */
  lemma ShortArmedIgnored(a: string, b: string, v: Option<Value>)
    requires DotFree(a) && DotFree(b)
    ensures OnStateChange(a + "." + b + "." + "armed", Some(State(v, false))) == Ignored
  {
    SplitThree(a, b, "armed");
  }
}
