/**
 That there is a copy to be coherent: what loads it, the little that drops it again, and how it comes
 back after a restart of bluetoothd.
 */
module BluezLive {
  import opened Base
  import opened BluezTree
  import opened BluezServer
  import opened BluezCells
  import opened BluezSystem

  /** A blocking fetch that is answered leaves a loaded copy, and that copy is the tree. */
  lemma FetchLoads(s: System, listing: seq<Managed>, luck: Luck)
    requires Enabled(s, Fetch(listing, luck)) && WellFormedTree(s.tree) && luck.memory
    ensures var next := Take(s, Fetch(listing, luck));
            && next.client.loaded && next.client.serial == 0 && Mirrors(next.client.objects, s.tree)
            && next.tree == s.tree && next.bus == s.bus && next.up == s.up
  {
    hide LoadFrom;
    LoadMirrors(listing, s.tree);
  }

  /** So does the answer to a fetch that was not waited for: the copy is the tree that was listed. */
  lemma AnswerLoads(s: System, luck: Luck, tree: Tree)
    requires s.bus != [] && s.bus[0].ManagedObjects? && luck.memory
    requires s.client.serial != 0 && s.bus[0].serial == s.client.serial
    requires WellFormedTree(tree) && Lists(s.bus[0].listing, tree)
    ensures var next := Take(s, Process(luck));
            next.client.loaded && next.client.serial == 0 && Mirrors(next.client.objects, tree)
  {
    hide LoadFrom;
    LoadMirrors(s.bus[0].listing, tree);
  }

  /** Any other answer changes nothing, and one that refuses leaves nothing outstanding. */
  lemma AnswerElse(s: System, luck: Luck)
    requires s.bus != [] && (s.bus[0].ManagedObjects? || s.bus[0].ErrorReply?)
    ensures var next := Take(s, Process(luck));
            && (s.bus[0].serial == 0 || s.bus[0].serial != s.client.serial ==> next.client == s.client)
            && (s.bus[0].ErrorReply? && s.bus[0].serial == s.client.serial ==>
                  next.client == s.client.(serial := 0))
  {
    hide LoadFrom;
  }

  /** A signal never loads a copy and, with memory, never drops one; nor does it touch a fetch. */
  lemma SignalKeeps(s: System, luck: Luck)
    requires s.bus != [] && IsSignal(s.bus[0])
    ensures var next := Take(s, Process(luck));
            && next.client.serial == s.client.serial && next.client.sent == s.client.sent
            && (!s.client.loaded ==> next.client == s.client)
            && (luck.memory ==> next.client.loaded == s.client.loaded)
  {
    hide AddInterfaces;
    hide RemoveInterfaces;
    hide ChangeProperties;
  }

  /** A new bluetoothd: the old copy is gone and, if the call can be queued, a snapshot is on its way. */
  lemma OwnerAsks(s: System, luck: Luck)
    requires s.bus != [] && s.bus[0].NameOwnerChanged? && s.bus[0].service == "org.bluez"
    ensures var next := Take(s, Process(luck));
            && !next.client.loaded && next.client.objects == []
            && if s.bus[0].newOwner != "" && luck.queued
               then next.client.serial == s.client.sent + 1 && next.client.serial in next.asked
               else next.client.serial == 0
  {
  }

  /** Only these end a copy: bluetoothd's restart or exit, and want of memory. */
  lemma DropsOnly(s: System, step: Step)
    requires Enabled(s, step) && s.client.loaded && !Take(s, step).client.loaded
    ensures step.Process?
    ensures (s.bus[0].NameOwnerChanged? && s.bus[0].service == "org.bluez") || !step.luck.memory
  {
    hide AddInterfaces;
    hide RemoveInterfaces;
    hide ChangeProperties;
    hide LoadFrom;
  }

  /** A quiet bus, and a bluetoothd that starts, is asked and answers: the copy is its tree. */
  lemma ComesBack(s: System, owner: string, born: Tree, listing: seq<Managed>)
    requires Invariant(s) && s.bus == [] && owner != "" && WellFormedTree(born) && Lists(listing, born)
    ensures var started := Take(s, Start(owner, born));
            var asked := Take(started, Process(LUCKY));
            var answer := Answer(asked.client.serial, listing);
            var answered := Take(asked, answer);
            var done := Take(answered, Process(LUCKY));
            && Enabled(s, Start(owner, born)) && Enabled(asked, answer)
            && done.bus == [] && done.client.loaded && Mirrors(done.client.objects, born)
  {
    hide Mirrors;
    hide LoadFrom;
    hide Lists;
    var started := Take(s, Start(owner, born));
    var asked := Take(started, Process(LUCKY));
    OwnerAsks(started, LUCKY);
    assert asked.bus == [];
    var answered := Take(asked, Answer(asked.client.serial, listing));
    assert answered.bus == [ManagedObjects(asked.client.serial, listing)];
    AnswerLoads(answered, LUCKY, born);
    assert answered.bus[1..] == [];
  }

  /** Everything on the bus, handled with nothing going wrong. */
  function Drained(s: System): System
    decreases |s.bus|
  {
    if s.bus == [] then s else Drained(Take(s, Process(LUCKY)))
  }

  lemma {:induction false} DrainedKeeps(s: System)
    requires Invariant(s)
    ensures var d := Drained(s);
            Invariant(d) && d.bus == [] && d.tree == s.tree && d.up == s.up
    decreases |s.bus|
  {
    hide Invariant;
    if s.bus != [] {
      StepKeeps(s, Process(LUCKY));
      DrainedKeeps(Take(s, Process(LUCKY)));
    }
  }

  /**
   From wherever a run has got to, with bluetoothd there: once what is queued has been handled, there is
   a copy and it is the tree, or one blocking fetch makes it so.
   */
  lemma Recovers(s: System, listing: seq<Managed>)
    requires Invariant(s) && s.up && Lists(listing, s.tree)
    ensures var d := Drained(s);
            var done := if d.client.loaded then d else Take(d, Fetch(listing, LUCKY));
            && (!d.client.loaded ==> Enabled(d, Fetch(listing, LUCKY)))
            && done.client.loaded && Mirrors(done.client.objects, s.tree)
  {
    DrainedKeeps(s);
    hide Mirrors;
    hide Lists;
    hide Drained;
    var d := Drained(s);
    assert Settles(d.client, [], d.tree, d.up);
    if !d.client.loaded {
      FetchLoads(d, listing, LUCKY);
    }
  }

  const HOST := Managed("/org/bluez/hci0", [
    Interface("org.freedesktop.DBus.Properties", []),
    Interface("org.bluez.Adapter1", [Property("Powered", Boolean(false)), Property("Discovering", Boolean(true))])])

  const SENSOR := Managed("/org/bluez/hci0/dev_1", [
    Interface("org.bluez.Device1", [Property("Alias", Text("sensor")), Property("RSSI", Int16(-40)),
                                    Property("Paired", Boolean(true))])])

  const READING := Managed("/org/bluez/hci0/dev_1/char2", [
    Interface("org.bluez.GattCharacteristic1", [Property("UUID", Text("2a19"))])])

  const HOST_KEPT :=
    Object("/org/bluez/hci0", {Adapter}, NO_FIELDS.(poweredOff := true, discovering := true))

  const SENSOR_KEPT :=
    Object("/org/bluez/hci0/dev_1", {Device},
           NO_FIELDS.(alias := "sensor", rssi := -40, hasRssi := true, paired := true))

  const READING_KEPT := Object("/org/bluez/hci0/dev_1/char2", {Characteristic}, NO_FIELDS.(uuid := "2a19"))

  /** One listing, and the copy a backend that had none holds after it. */
  lemma FirstFetch()
    ensures Ensure(Client([], false, 0, 0), Listed([HOST, SENSOR, READING]), LUCKY)
            == Client([HOST_KEPT, SENSOR_KEPT, READING_KEPT], true, 0, 1)
  {
    LoadsThese();
    hide LoadFrom;
  }

  lemma LoadsThese()
    ensures LoadFrom([], [HOST, SENSOR, READING]) == [HOST_KEPT, SENSOR_KEPT, READING_KEPT]
  {
    HostAdded();
    SensorAdded(HOST_KEPT);
    ReadingAdded(HOST_KEPT, SENSOR_KEPT);
    hide *;
    LoadThree(HOST, SENSOR, READING, [HOST_KEPT], [HOST_KEPT, SENSOR_KEPT], [HOST_KEPT, SENSOR_KEPT, READING_KEPT]);
  }

  lemma LoadThree(a: Managed, b: Managed, c: Managed, one: seq<Object>, two: seq<Object>, three: seq<Object>)
    requires AddInterfaces([], a.path, a.interfaces) == one && AddInterfaces(one, b.path, b.interfaces) == two
    requires AddInterfaces(two, c.path, c.interfaces) == three
    ensures LoadFrom([], [a, b, c]) == three
  {
    hide *;
    LoadTurn([], a, [b, c]);
    LoadTurn(one, b, [c]);
    LoadTurn(two, c, []);
    LoadEnds(three);
    assert [a, b, c] == [a] + [b, c] && [b, c] == [b] + [c] && [c] == [c] + [];
  }

  lemma LoadTurn(objects: seq<Object>, next: Managed, rest: seq<Managed>)
    ensures LoadFrom(objects, [next] + rest)
            == LoadFrom(AddInterfaces(objects, next.path, next.interfaces), rest)
  {
    hide AddInterfaces;
    assert ([next] + rest)[1..] == rest;
  }

  lemma LoadEnds(objects: seq<Object>)
    ensures LoadFrom(objects, []) == objects
  {
  }

  lemma HostAdded()
    ensures AddInterfaces([], HOST.path, HOST.interfaces)
            == [HOST_KEPT]
  {
    var properties := HOST.interfaces[1].properties;
    assert properties[1..] == [Property("Discovering", Boolean(true))] && properties[1..][1..] == [];
    assert SetProperties(NO_FIELDS, Adapter, properties) == NO_FIELDS.(poweredOff := true, discovering := true);
    assert HOST.interfaces[1..] == [HOST.interfaces[1]] && HOST.interfaces[1..][1..] == [];
    assert {} + {Adapter} == {Adapter};
  }

  lemma SensorAdded(first: Object)
    requires first.path == "/org/bluez/hci0"
    ensures AddInterfaces([first], SENSOR.path, SENSOR.interfaces)
            == [first, SENSOR_KEPT]
  {
    assert "/org/bluez/hci0/dev_1"[15] == '/' && |"/org/bluez/hci0"| == 15;
    var properties := SENSOR.interfaces[0].properties;
    assert properties[1..] == [Property("RSSI", Int16(-40)), Property("Paired", Boolean(true))];
    assert properties[1..][1..] == [Property("Paired", Boolean(true))] && properties[1..][1..][1..] == [];
    assert SetProperties(NO_FIELDS, Device, properties)
        == NO_FIELDS.(alias := "sensor", rssi := -40, hasRssi := true, paired := true);
    assert {} + {Device} == {Device} && SENSOR.interfaces[1..] == [];
  }

  lemma ReadingAdded(first: Object, second: Object)
    requires first.path == "/org/bluez/hci0" && second.path == "/org/bluez/hci0/dev_1"
    ensures AddInterfaces([first, second], READING.path, READING.interfaces)
            == [first, second, READING_KEPT]
  {
    assert |READING.path| == 27 && |second.path| == 21 && |first.path| == 15;
    var properties := READING.interfaces[0].properties;
    assert properties[1..] == [];
    assert SetProperties(NO_FIELDS, Characteristic, properties) == NO_FIELDS.(uuid := "2a19");
    assert {} + {Characteristic} == {Characteristic} && READING.interfaces[1..] == [];
    assert [first, second][1..] == [second] && [second][1..] == [];
    assert Find([first, second], READING.path) == 2;
  }
}
