/** The schema projection: a summary from the cloud service becomes one
    state declaration per attribute, at the path
    `network.name + '.' + key` for a network attribute and
    `network.name + '.' + device.name + '.' + key` for a device attribute. */
module Schema {
  import opened Values
  import opened Paths

  /** One polling cycle's snapshot: the network's attributes and the list of
      its devices, each an attribute object. */
  datatype Summary = Summary(network: Attrs, devices: seq<Attrs>)

  predicate AllNamed(devices: seq<Attrs>) {
    forall j :: 0 <= j < |devices| ==> HasName(devices[j])
  }

  /** The network and every device carry a string `name`. */
  predicate Named(s: Summary) {
    HasName(s.network) && AllNamed(s.devices)
  }

  predicate DistinctKeys(attrs: Attrs) {
    forall k, k' :: 0 <= k < k' < |attrs| ==> attrs[k].key != attrs[k'].key
  }

  /** An object whose name and keys can serve as id segments. Keys of a
      JavaScript object are always distinct. */
  predicate WellFormedEntity(attrs: Attrs) {
    && HasName(attrs)
    && DotFree(NameOf(attrs))
    && (forall k :: 0 <= k < |attrs| ==> DotFree(attrs[k].key))
    && DistinctKeys(attrs)
  }

  /** The shape the service guarantees: names and keys are dot-free id
      segments and device names are unique within the network. */
  predicate WellFormed(s: Summary) {
    && WellFormedEntity(s.network)
    && (forall j :: 0 <= j < |s.devices| ==> WellFormedEntity(s.devices[j]))
    && (forall j, j' :: 0 <= j < j' < |s.devices| ==>
          NameOf(s.devices[j]) != NameOf(s.devices[j']))
  }

  /** One attribute together with the state path it is mirrored to. */
  datatype Entry = Entry(path: string, key: string, val: Value)

  function AttrEntry(prefix: string, a: Attr): (e: Entry) {
    Entry(prefix + a.key, a.key, a.val)
  }

  function EntityEntries(prefix: string, attrs: Attrs): (es: seq<Entry>)
    ensures |es| == |attrs|
  {
    seq(|attrs|, k requires 0 <= k < |attrs| => AttrEntry(prefix, attrs[k]))
  }

  function NetworkPrefix(s: Summary): (prefix: string)
    requires HasName(s.network)
  {
    NameOf(s.network) + "."
  }

  function DevicePrefix(network: string, device: Attrs): (prefix: string)
    requires HasName(device)
  {
    network + "." + NameOf(device) + "."
  }

  /** The device attributes, device by device in list order. */
  function DeviceEntries(network: string, devices: seq<Attrs>): (es: seq<Entry>)
    requires AllNamed(devices)
  {
    if devices == [] then []
    else
      var n := |devices| - 1;
      DeviceEntries(network, devices[..n]) + EntityEntries(DevicePrefix(network, devices[n]), devices[n])
  }

  /** Every attribute of the summary with its path, in the order the source
      visits them: the network's entries, then each device's. */
  function Entries(s: Summary): (es: seq<Entry>)
    requires Named(s)
  {
    EntityEntries(NetworkPrefix(s), s.network) + DeviceEntries(NameOf(s.network), s.devices)
  }

  /** Number of device attributes over a device list. */
  function AttrCount(devices: seq<Attrs>): (n: nat) {
    if devices == [] then 0 else AttrCount(devices[..|devices| - 1]) + |devices[|devices| - 1]|
  }

  datatype Common = Common(name: string, valueType: string, role: string, read: bool, write: bool)

  /** The object passed to `setObjectNotExistsAsync`. */
  datatype ObjectDecl = ObjectDecl(objType: string, common: Common, nativeId: string)

  /** A pending create-if-absent of `decl` at `path`. */
  datatype CreateRequest = CreateRequest(path: string, decl: ObjectDecl)

  /** The declaration of one attribute: a read-only indicator of the
      attribute's value type, named after its key, whose native id is its
      own path. */
  function Declare(e: Entry): (r: CreateRequest) {
    CreateRequest(e.path, ObjectDecl("state", Common(e.key, TypeOf(e.val), "indicator", true, false), e.path))
  }

  function DeclareAll(es: seq<Entry>): (rs: seq<CreateRequest>)
    ensures |rs| == |es|
  {
    seq(|es|, i requires 0 <= i < |es| => Declare(es[i]))
  }

  /** What `createStateObjects` asks the store to create. */
  function Declarations(s: Summary): (rs: seq<CreateRequest>)
    requires Named(s)
  {
    DeclareAll(Entries(s))
  }

  predicate DistinctPaths(es: seq<Entry>) {
    forall i, i' :: 0 <= i < i' < |es| ==> es[i].path != es[i'].path
  }

  lemma EntityEntriesSnoc(prefix: string, attrs: Attrs, k: nat)
    requires k < |attrs|
    ensures EntityEntries(prefix, attrs[..k + 1]) == EntityEntries(prefix, attrs[..k]) + [AttrEntry(prefix, attrs[k])]
  {
    var l, r := EntityEntries(prefix, attrs[..k + 1]), EntityEntries(prefix, attrs[..k]) + [AttrEntry(prefix, attrs[k])];
    assert forall i :: 0 <= i < |l| ==> l[i] == r[i];
  }

  lemma DeclareAllSnoc(es: seq<Entry>, e: Entry)
    ensures DeclareAll(es + [e]) == DeclareAll(es) + [Declare(e)]
  {
    var l, r := DeclareAll(es + [e]), DeclareAll(es) + [Declare(e)];
    assert forall i :: 0 <= i < |l| ==> l[i] == r[i];
  }

  lemma DeviceEntriesSnoc(network: string, devices: seq<Attrs>, j: nat)
    requires AllNamed(devices) && j < |devices|
    ensures DeviceEntries(network, devices[..j + 1])
         == DeviceEntries(network, devices[..j]) + EntityEntries(DevicePrefix(network, devices[j]), devices[j])
  {
    assert devices[..j + 1][..j] == devices[..j];
  }

  /** `createStateObjects`: walks the network's entries, then each device's
      entries, and pushes one create-if-absent request per attribute. */
  method CreateStateObjects(summary: Summary) returns (promises: seq<CreateRequest>)
    requires Named(summary)
    ensures promises == Declarations(summary)
  {
    var network := NameOf(summary.network);
    promises := [];
    ghost var done: seq<Entry> := [];
    var k := 0;
    while k < |summary.network|
      invariant 0 <= k <= |summary.network|
      invariant done == EntityEntries(network + ".", summary.network[..k])
      invariant promises == DeclareAll(done)
    {
      var key, val := summary.network[k].key, summary.network[k].val;
      promises := promises + [CreateRequest(network + "." + key,
        ObjectDecl("state", Common(key, TypeOf(val), "indicator", true, false), network + "." + key))];
      EntityEntriesSnoc(network + ".", summary.network, k);
      DeclareAllSnoc(done, AttrEntry(network + ".", summary.network[k]));
      done := done + [AttrEntry(network + ".", summary.network[k])];
      k := k + 1;
    }
    assert summary.network[..k] == summary.network;
    ghost var networkDone := done;

    var j := 0;
    while j < |summary.devices|
      invariant 0 <= j <= |summary.devices|
      invariant done == networkDone + DeviceEntries(network, summary.devices[..j])
      invariant promises == DeclareAll(done)
    {
      var device := summary.devices[j];
      var name := NameOf(device);
      ghost var before := done;
      k := 0;
      while k < |device|
        invariant 0 <= k <= |device|
        invariant done == before + EntityEntries(network + "." + name + ".", device[..k])
        invariant promises == DeclareAll(done)
      {
        var key, val := device[k].key, device[k].val;
        promises := promises + [CreateRequest(network + "." + name + "." + key,
          ObjectDecl("state", Common(key, TypeOf(val), "indicator", true, false), network + "." + name + "." + key))];
        EntityEntriesSnoc(network + "." + name + ".", device, k);
        DeclareAllSnoc(done, AttrEntry(network + "." + name + ".", device[k]));
        done := done + [AttrEntry(network + "." + name + ".", device[k])];
        k := k + 1;
      }
      assert device[..k] == device;
      DeviceEntriesSnoc(network, summary.devices, j);
      j := j + 1;
    }
    assert summary.devices[..j] == summary.devices;
  }

  lemma {:induction false} DeviceEntriesCount(network: string, devices: seq<Attrs>)
    requires AllNamed(devices)
    ensures |DeviceEntries(network, devices)| == AttrCount(devices)
  {
    if devices != [] {
      DeviceEntriesCount(network, devices[..|devices| - 1]);
    }
  }

  /** One declaration per network attribute plus one per attribute of each
      device. */
  lemma EntriesCount(s: Summary)
    requires Named(s)
    ensures |Entries(s)| == |Declarations(s)| == |s.network| + AttrCount(s.devices)
  {
    DeviceEntriesCount(NameOf(s.network), s.devices);
  }

  /** Attribute `k` of device `j` sits at position `AttrCount(devices[..j]) + k`
      among the device entries. */
  lemma {:induction false} DeviceEntryAt(network: string, devices: seq<Attrs>, j: nat, k: nat)
    requires AllNamed(devices)
    requires j < |devices| && k < |devices[j]|
    ensures AttrCount(devices[..j]) + k < |DeviceEntries(network, devices)|
    ensures DeviceEntries(network, devices)[AttrCount(devices[..j]) + k]
         == AttrEntry(DevicePrefix(network, devices[j]), devices[j][k])
  {
    var n := |devices| - 1;
    var front := devices[..n];
    DeviceEntriesCount(network, front);
    if j < n {
      assert front[..j] == devices[..j];
      DeviceEntryAt(network, front, j, k);
    } else {
      assert devices[..j] == front;
    }
  }

  /** Every device entry comes from exactly the attribute `k` of device `j`
      found at its position. */
  lemma {:induction false} DeviceEntryOwner(network: string, devices: seq<Attrs>, i: nat) returns (j: nat, k: nat)
    requires AllNamed(devices)
    requires i < |DeviceEntries(network, devices)|
    ensures j < |devices| && k < |devices[j]|
    ensures i == AttrCount(devices[..j]) + k
    ensures DeviceEntries(network, devices)[i] == AttrEntry(DevicePrefix(network, devices[j]), devices[j][k])
  {
    var n := |devices| - 1;
    var front := devices[..n];
    DeviceEntriesCount(network, front);
    if i < |DeviceEntries(network, front)| {
      j, k := DeviceEntryOwner(network, front, i);
      assert front[..j] == devices[..j];
    } else {
      j, k := n, i - AttrCount(front);
      assert devices[..j] == front;
    }
  }

  /** The projection starts with the network's attributes, in their own
      order, whether or not there are devices. */
  lemma NetworkLayout(s: Summary)
    requires Named(s)
    ensures |s.network| <= |Entries(s)|
    ensures forall k :: 0 <= k < |s.network| ==> Entries(s)[k] == AttrEntry(NetworkPrefix(s), s.network[k])
  {
  }

  /** The projection's device part follows the network part: device by
      device, each device's attributes in order. */
  lemma EntriesLayout(s: Summary, j: nat, k: nat)
    requires Named(s)
    requires j < |s.devices| && k < |s.devices[j]|
    ensures |s.network| + AttrCount(s.devices[..j]) + k < |Entries(s)|
    ensures Entries(s)[|s.network| + AttrCount(s.devices[..j]) + k]
         == AttrEntry(DevicePrefix(NameOf(s.network), s.devices[j]), s.devices[j][k])
  {
    DeviceEntryAt(NameOf(s.network), s.devices, j, k);
  }

  /** Each declaration is a read-only indicator named after its attribute's
      key, typed by the attribute's value, whose native id is its own path. */
  lemma DeclarationsContents(s: Summary, i: nat)
    requires Named(s) && i < |Entries(s)|
    ensures Declarations(s)[i].path == Entries(s)[i].path
    ensures Declarations(s)[i].decl == ObjectDecl("state",
      Common(Entries(s)[i].key, TypeOf(Entries(s)[i].val), "indicator", true, false), Entries(s)[i].path)
  {
  }

  /** A network attribute's path has the two segments network name and key. */
  lemma NetworkPathSegments(s: Summary, k: nat)
    requires WellFormed(s) && k < |s.network|
    ensures Split(AttrEntry(NetworkPrefix(s), s.network[k]).path) == [NameOf(s.network), s.network[k].key]
  {
    var name, key := NameOf(s.network), s.network[k].key;
    assert NetworkPrefix(s) + key == name + "." + key;
    SplitCons(name, key);
    SplitDotFree(key);
  }

  /** A device attribute's path has the three segments network name, device
      name and key. */
  lemma DevicePathSegments(s: Summary, j: nat, k: nat)
    requires WellFormed(s) && j < |s.devices| && k < |s.devices[j]|
    ensures Split(AttrEntry(DevicePrefix(NameOf(s.network), s.devices[j]), s.devices[j][k]).path)
         == [NameOf(s.network), NameOf(s.devices[j]), s.devices[j][k].key]
  {
    SplitThree(NameOf(s.network), NameOf(s.devices[j]), s.devices[j][k].key);
  }

  /** Every network path has two segments and every device path three. */
  lemma PathsWellFormed(s: Summary, i: nat)
    requires WellFormed(s) && i < |Entries(s)|
    ensures |Split(Entries(s)[i].path)| == if i < |s.network| then 2 else 3
    ensures Split(Entries(s)[i].path)[0] == NameOf(s.network)
    ensures Split(Entries(s)[i].path)[|Split(Entries(s)[i].path)| - 1] == Entries(s)[i].key
  {
    if i < |s.network| {
      NetworkPathSegments(s, i);
    } else {
      var j, k := DeviceEntryOwner(NameOf(s.network), s.devices, i - |s.network|);
      DevicePathSegments(s, j, k);
    }
  }

  lemma NetworkPathsDiffer(s: Summary, k: nat, k': nat)
    requires WellFormed(s) && k < k' < |s.network|
    ensures AttrEntry(NetworkPrefix(s), s.network[k]).path != AttrEntry(NetworkPrefix(s), s.network[k']).path
  {
    NetworkPathSegments(s, k);
    NetworkPathSegments(s, k');
  }

  lemma NetworkDevicePathsDiffer(s: Summary, k: nat, j: nat, k': nat)
    requires WellFormed(s) && k < |s.network| && j < |s.devices| && k' < |s.devices[j]|
    ensures AttrEntry(NetworkPrefix(s), s.network[k]).path
         != AttrEntry(DevicePrefix(NameOf(s.network), s.devices[j]), s.devices[j][k']).path
  {
    NetworkPathSegments(s, k);
    DevicePathSegments(s, j, k');
  }

  lemma DevicePathsDiffer(s: Summary, j: nat, k: nat, j': nat, k': nat)
    requires WellFormed(s) && j < |s.devices| && k < |s.devices[j]| && j' < |s.devices| && k' < |s.devices[j']|
    requires j != j' || k != k'
    ensures AttrEntry(DevicePrefix(NameOf(s.network), s.devices[j]), s.devices[j][k]).path
         != AttrEntry(DevicePrefix(NameOf(s.network), s.devices[j']), s.devices[j'][k']).path
  {
    DevicePathSegments(s, j, k);
    DevicePathSegments(s, j', k');
    if j != j' {
      assert NameOf(s.devices[j]) != NameOf(s.devices[j']) by {
        if j < j' { } else { }
      }
    } else {
      assert s.devices[j][k].key != s.devices[j][k'].key by {
        assert WellFormedEntity(s.devices[j]);
        if k < k' { } else { }
      }
    }
  }

  lemma EntryPathsDiffer(s: Summary, i: nat, i': nat)
    requires WellFormed(s) && i < i' < |Entries(s)|
    ensures Entries(s)[i].path != Entries(s)[i'].path
  {
    var es, m, network := Entries(s), |s.network|, NameOf(s.network);
    var ds := DeviceEntries(network, s.devices);
    if i' < m {
      NetworkPathsDiffer(s, i, i');
    } else {
      var j', k' := DeviceEntryOwner(network, s.devices, i' - m);
      assert es[i'] == ds[i' - m];
      if i < m {
        NetworkDevicePathsDiffer(s, i, j', k');
      } else {
        var j, k := DeviceEntryOwner(network, s.devices, i - m);
        assert es[i] == ds[i - m];
        DevicePathsDiffer(s, j, k, j', k');
      }
    }
  }

  /** No two attributes of a well-formed summary are mirrored to the same
      path, so no two declarations share a path. */
  lemma EntriesDistinct(s: Summary)
    requires WellFormed(s)
    ensures DistinctPaths(Entries(s))
    ensures forall i, i' :: 0 <= i < i' < |Declarations(s)| ==> Declarations(s)[i].path != Declarations(s)[i'].path
  {
    forall i, i' | 0 <= i < i' < |Entries(s)| ensures Entries(s)[i].path != Entries(s)[i'].path {
      EntryPathsDiffer(s, i, i');
    }
  }
}
