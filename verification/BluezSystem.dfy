/**
 The convergence of the copy: bluetoothd, the bus and the backend as three parties that take
 steps in any order. Whatever the interleaving, once every queued message has been handled a copy
 that claims to be loaded is bluetoothd's tree.
 */
module BluezSystem {
  import opened Base
  import opened BluezTree
  import opened BluezServer
  import opened BluezCells

  // ---- what the copy shows ---------------------------------------------------------------

  /** The fields an interface owns; a reader of the copy looks at no others. */
  function Visible(kind: Kind, fields: Fields): Fields {
    match kind
    case Adapter => NO_FIELDS.(poweredOff := fields.poweredOff, discovering := fields.discovering)
    case Characteristic => NO_FIELDS.(uuid := fields.uuid)
    case Device =>
      NO_FIELDS.(address := fields.address, name := fields.name, alias := fields.alias,
                 rssi := fields.rssi, hasRssi := fields.hasRssi, paired := fields.paired,
                 services := fields.services)
  }

  predicate Shows(item: Option<Object>, entry: Option<Entry>) {
    match entry
    case None => item.None?
    case Some(Entry(kind, fields)) =>
      item.Some? && item.value.interfaces == {kind} && Visible(kind, item.value.fields) == fields
  }

  /** The copy is the tree, at every path. */
  ghost predicate Mirrors(objects: seq<Object>, tree: Tree) {
    && WellFormed(objects)
    && forall path :: Shows(Lookup(objects, path), Kept(tree, path))
  }

  // ---- setting fields, an interface at a time --------------------------------------------

  predicate Owns(kind: Kind, write: Write) {
    match write
    case Skip => true
    case PoweredOff(_) => kind == Adapter
    case Discovering(_) => kind == Adapter
    case Uuid(_) => kind == Characteristic
    case _ => kind == Device
  }

  lemma SettingOwned(kind: Kind, property: Property)
    ensures Owns(kind, Setting(kind, property))
  {
  }

  lemma UnsettingOwned(kind: Kind, name: string)
    ensures Owns(kind, Unsetting(kind, name))
  {
  }

  lemma VisiblePut(fields: Fields, kind: Kind, write: Write, other: Kind)
    requires Owns(kind, write)
    ensures Visible(kind, Put(fields, write)) == Put(Visible(kind, fields), write)
    ensures other != kind ==> Visible(other, Put(fields, write)) == Visible(other, fields)
  {
  }

  lemma {:induction false} VisibleSet(fields: Fields, kind: Kind, properties: seq<Property>, other: Kind)
    ensures Visible(kind, SetProperties(fields, kind, properties))
            == SetProperties(Visible(kind, fields), kind, properties)
    ensures other != kind ==> Visible(other, SetProperties(fields, kind, properties)) == Visible(other, fields)
    decreases |properties|
  {
    if properties != [] {
      SettingOwned(kind, properties[0]);
      var write := Setting(kind, properties[0]);
      VisiblePut(fields, kind, write, other);
      VisibleSet(Put(fields, write), kind, properties[1..], other);
    }
  }

  lemma {:induction false} VisibleUnset(fields: Fields, kind: Kind, names: seq<string>, other: Kind)
    ensures Visible(kind, UnsetProperties(fields, kind, names))
            == UnsetProperties(Visible(kind, fields), kind, names)
    ensures other != kind ==> Visible(other, UnsetProperties(fields, kind, names)) == Visible(other, fields)
    decreases |names|
  {
    if names != [] {
      UnsettingOwned(kind, names[0]);
      var write := Unsetting(kind, names[0]);
      VisiblePut(fields, kind, write, other);
      VisibleUnset(Put(fields, write), kind, names[1..], other);
    }
  }

  predicate MixedFlags(fields: Fields, past: Fields, end: Fields) {
    && (fields.poweredOff == past.poweredOff || fields.poweredOff == end.poweredOff)
    && (fields.discovering == past.discovering || fields.discovering == end.discovering)
    && (fields.paired == past.paired || fields.paired == end.paired)
  }

  predicate MixedTexts(fields: Fields, past: Fields, end: Fields) {
    && (fields.address == past.address || fields.address == end.address)
    && (fields.name == past.name || fields.name == end.name)
    && (fields.alias == past.alias || fields.alias == end.alias)
    && (fields.uuid == past.uuid || fields.uuid == end.uuid)
  }

  predicate MixedOthers(fields: Fields, past: Fields, end: Fields) {
    && (fields.rssi == past.rssi || fields.rssi == end.rssi)
    && (fields.hasRssi == past.hasRssi || fields.hasRssi == end.hasRssi)
    && (fields.services == past.services || fields.services == end.services)
  }

  /** Every field is as it was at some past moment, or as it is in the end. */
  predicate Mixed(fields: Fields, past: Fields, end: Fields) {
    MixedFlags(fields, past, end) && MixedTexts(fields, past, end) && MixedOthers(fields, past, end)
  }

  lemma FlagsPut(fields: Fields, past: Fields, end: Fields, write: Write)
    requires MixedFlags(fields, past, end)
    ensures MixedFlags(Put(fields, write), Put(past, write), end)
  {
  }

  lemma TextsPut(fields: Fields, past: Fields, end: Fields, write: Write)
    requires MixedTexts(fields, past, end)
    ensures MixedTexts(Put(fields, write), Put(past, write), end)
  {
  }

  lemma OthersPut(fields: Fields, past: Fields, end: Fields, write: Write)
    requires MixedOthers(fields, past, end)
    ensures MixedOthers(Put(fields, write), Put(past, write), end)
  {
  }

  lemma MixedPut(fields: Fields, past: Fields, end: Fields, write: Write)
    requires Mixed(fields, past, end)
    ensures Mixed(Put(fields, write), Put(past, write), end)
  {
    hide MixedFlags;
    hide MixedTexts;
    hide MixedOthers;
    hide Put;
    FlagsPut(fields, past, end, write);
    TextsPut(fields, past, end, write);
    OthersPut(fields, past, end, write);
  }

  lemma {:induction false} MixedSet(fields: Fields, past: Fields, end: Fields, kind: Kind, properties: seq<Property>)
    requires Mixed(fields, past, end)
    ensures Mixed(SetProperties(fields, kind, properties), SetProperties(past, kind, properties), end)
    decreases |properties|
  {
    if properties != [] {
      var write := Setting(kind, properties[0]);
      MixedPut(fields, past, end, write);
      MixedSet(Put(fields, write), Put(past, write), end, kind, properties[1..]);
    }
  }

  lemma {:induction false} MixedUnset(fields: Fields, past: Fields, end: Fields, kind: Kind, names: seq<string>)
    requires Mixed(fields, past, end)
    ensures Mixed(UnsetProperties(fields, kind, names), UnsetProperties(past, kind, names), end)
    decreases |names|
  {
    if names != [] {
      var write := Unsetting(kind, names[0]);
      MixedPut(fields, past, end, write);
      MixedUnset(Put(fields, write), Put(past, write), end, kind, names[1..]);
    }
  }

  // ---- a signal the copy has not seen keeps it exact --------------------------------------

  lemma ShowsStep(item: Option<Object>, entry: Option<Entry>, path: string, event: CellEvent)
    requires Shows(item, entry) && Possible(entry, event)
    ensures Shows(StepObject(item, path, event), StepEntry(entry, event))
  {
    match event
    case Quiet =>
    case Appear(kind, properties) =>
      VisibleSet(NO_FIELDS, kind, properties, kind);
    case Vanish(kinds) =>
      if entry.Some? && kinds != {} {
        assert kinds == {entry.value.kind};
      }
    case Touch(kind, changed, invalidated) =>
      var fields := item.value.fields;
      VisibleSet(fields, kind, changed, kind);
      VisibleUnset(SetProperties(fields, kind, changed), kind, invalidated, kind);
  }

  lemma MirrorsApply(objects: seq<Object>, tree: Tree, signal: Message)
    requires Mirrors(objects, tree) && WellFormedTree(tree)
    requires IsSignal(signal) && Announces(tree, signal)
    ensures WellFormedTree(After(tree, signal))
    ensures Mirrors(Apply(objects, signal), After(tree, signal))
  {
    forall path
      ensures WellFormed(Apply(objects, signal)) && WellFormedTree(After(tree, signal))
      ensures Shows(Lookup(Apply(objects, signal), path), Kept(After(tree, signal), path))
    {
      AfterCell(tree, signal, path);
      ApplyCell(objects, signal, path);
      ShowsStep(Lookup(objects, path), Kept(tree, path), path, EventAt(signal, path));
    }
    assert WellFormed(Apply(objects, signal)) && WellFormedTree(After(tree, signal)) by {
      assert Shows(Lookup(Apply(objects, signal), ""), Kept(After(tree, signal), ""));
    }
  }

  // ---- a signal the copy is ahead of does no lasting harm ---------------------------------

  /**
   A cell of the copy that started from the end of a history and is being taken through it again:
   `now` is where the history stands, `end` where it finishes.
   */
  predicate Tracks(item: Option<Object>, now: Option<Entry>, end: Option<Entry>) {
    var kinds := if item.Some? then item.value.interfaces else {};
    && (item.Some? ==> kinds != {})
    && (forall k :: k in kinds ==> (end.Some? && end.value.kind == k) || (now.Some? && now.value.kind == k))
    && (end.Some? ==>
          var Entry(kind, fields) := end.value;
          var here := now.Some? && now.value.kind == kind;
          if kind in kinds
          then Mixed(Visible(kind, item.value.fields), if here then now.value.fields else fields, fields)
          else !here)
  }

  lemma TracksStart(item: Option<Object>, now: Option<Entry>, end: Option<Entry>)
    requires Shows(item, end)
    ensures Tracks(item, now, end)
  {
  }

  lemma TracksEnd(item: Option<Object>, end: Option<Entry>)
    requires Tracks(item, end, end)
    ensures Shows(item, end)
  {
    if end.Some? {
      assert item.value.interfaces == {end.value.kind};
    }
  }

  lemma TracksAppear(item: Option<Object>, now: Option<Entry>, end: Option<Entry>, path: string,
                     kind: Kind, properties: seq<Property>)
    requires Tracks(item, now, end) && now.None?
    ensures Tracks(StepObject(item, path, Appear(kind, properties)), StepEntry(now, Appear(kind, properties)), end)
  {
    var was := if item.Some? then item.value.fields else NO_FIELDS;
    if end.Some? {
      VisibleSet(was, kind, properties, end.value.kind);
      MixedSet(Visible(end.value.kind, was), NO_FIELDS, end.value.fields, kind, properties);
    }
  }

  lemma TracksTouch(item: Option<Object>, now: Option<Entry>, end: Option<Entry>, path: string,
                    kind: Kind, changed: seq<Property>, invalidated: seq<string>)
    requires Tracks(item, now, end) && now.Some? && now.value.kind == kind
    ensures Tracks(StepObject(item, path, Touch(kind, changed, invalidated)),
                   StepEntry(now, Touch(kind, changed, invalidated)), end)
  {
    if item.Some? && kind in item.value.interfaces && end.Some? {
      var was := item.value.fields;
      var set' := SetProperties(was, kind, changed);
      VisibleSet(was, kind, changed, end.value.kind);
      VisibleUnset(set', kind, invalidated, end.value.kind);
      if kind == end.value.kind {
        MixedSet(Visible(kind, was), now.value.fields, end.value.fields, kind, changed);
        MixedUnset(Visible(kind, set'), SetProperties(now.value.fields, kind, changed), end.value.fields,
                   kind, invalidated);
      }
    }
  }

  lemma TracksStep(item: Option<Object>, now: Option<Entry>, end: Option<Entry>, path: string, event: CellEvent)
    requires Tracks(item, now, end) && Possible(now, event)
    ensures Tracks(StepObject(item, path, event), StepEntry(now, event), end)
  {
    match event
    case Quiet =>
    case Appear(kind, properties) => TracksAppear(item, now, end, path, kind, properties);
    case Vanish(kinds) =>
    case Touch(kind, changed, invalidated) => TracksTouch(item, now, end, path, kind, changed, invalidated);
  }

  // ---- a snapshot ------------------------------------------------------------------------

  /** A GetManagedObjects reply: every object the tree has, in any order. */
  ghost predicate Lists(listing: seq<Managed>, tree: Tree) {
    && (forall i, j :: 0 <= i < j < |listing| ==> listing[i].path != listing[j].path)
    && (forall i :: 0 <= i < |listing| ==>
          && listing[i].path in tree && Sound(listing[i].interfaces)
          && Gain(map[], listing[i].interfaces) == tree[listing[i].path])
    && (forall path :: path in tree && tree[path] != map[] ==>
          exists i :: 0 <= i < |listing| && listing[i].path == path)
  }

  lemma {:induction false} LoadCell(objects: seq<Object>, listing: seq<Managed>, path: string)
    requires WellFormed(objects)
    requires forall i, j :: 0 <= i < j < |listing| ==> listing[i].path != listing[j].path
    requires forall i :: 0 <= i < |listing| ==> AtMostOneKept(listing[i].interfaces)
    ensures WellFormed(LoadFrom(objects, listing))
    ensures (forall i :: 0 <= i < |listing| ==> listing[i].path != path) ==>
      Lookup(LoadFrom(objects, listing), path) == Lookup(objects, path)
    ensures forall i :: 0 <= i < |listing| && listing[i].path == path ==>
      Lookup(LoadFrom(objects, listing), path)
      == StepObject(Lookup(objects, path), path, EventAt(InterfacesAdded(path, listing[i].interfaces), path))
    decreases |listing|
  {
    if listing != [] {
      var added := AddInterfaces(objects, listing[0].path, listing[0].interfaces);
      ApplyCell(objects, InterfacesAdded(listing[0].path, listing[0].interfaces), path);
      LoadCell(added, listing[1..], path);
      assert forall i :: 0 < i < |listing| ==> listing[i] == listing[1..][i - 1];
    }
  }

  /** A copy loaded from a snapshot is the tree. */
  lemma LoadMirrors(listing: seq<Managed>, tree: Tree)
    requires Lists(listing, tree) && WellFormedTree(tree)
    ensures Mirrors(LoadFrom([], listing), tree)
  {
    forall i | 0 <= i < |listing| ensures AtMostOneKept(listing[i].interfaces) {
      GainKept(map[], listing[i].interfaces);
    }
    forall path
      ensures WellFormed(LoadFrom([], listing))
      ensures Shows(Lookup(LoadFrom([], listing), path), Kept(tree, path))
    {
      LoadCell([], listing, path);
      if i :| 0 <= i < |listing| && listing[i].path == path {
        var event := EventAt(InterfacesAdded(path, listing[i].interfaces), path);
        GainKept(map[], listing[i].interfaces);
        ShowsStep(None, None, path, event);
        assert KeptIn(map[]) == None;
      } else {
        assert Interfaces(tree, path) == map[];
      }
    }
    assert WellFormed(LoadFrom([], listing)) by {
      assert Shows(Lookup(LoadFrom([], listing), ""), Kept(tree, ""));
    }
  }

  // ---- what is still on the bus ----------------------------------------------------------

  predicate Restarts(message: Message) {
    message.NameOwnerChanged? && message.service == "org.bluez"
  }

  /** The signals on the bus are how the tree got from `base` to what it is now. */
  ghost predicate History(base: Tree, bus: seq<Message>, tree: Tree)
    decreases |bus|
  {
    && WellFormedTree(base)
    && if bus == [] then base == tree
       else if IsSignal(bus[0]) then Announces(base, bus[0]) && History(After(base, bus[0]), bus[1..], tree)
       else if Restarts(bus[0]) then exists born :: History(born, bus[1..], tree)
       else History(base, bus[1..], tree)
  }

  lemma {:induction false} HistoryGrows(base: Tree, bus: seq<Message>, tree: Tree, message: Message, after: Tree)
    requires History(base, bus, tree) && WellFormedTree(after)
    requires IsSignal(message) ==> Announces(tree, message) && after == After(tree, message)
    requires !IsSignal(message) && !Restarts(message) ==> after == tree
    ensures History(base, bus + [message], after)
    decreases |bus|
  {
    var longer := bus + [message];
    if bus == [] {
      assert longer[1..] == [];
      assert History(after, longer[1..], after);
    } else {
      assert longer[1..] == bus[1..] + [message];
      if IsSignal(bus[0]) {
        HistoryGrows(After(base, bus[0]), bus[1..], tree, message, after);
      } else if Restarts(bus[0]) {
        var born :| History(born, bus[1..], tree);
        HistoryGrows(born, bus[1..], tree, message, after);
        assert History(born, longer[1..], after);
      } else {
        HistoryGrows(base, bus[1..], tree, message, after);
      }
    }
  }

  lemma HistoryTail(base: Tree, bus: seq<Message>, tree: Tree)
    requires History(base, bus, tree) && bus != []
    ensures exists next :: History(next, bus[1..], tree)
  {
    if IsSignal(bus[0]) {
      assert History(After(base, bus[0]), bus[1..], tree);
    }
  }

  const LUCKY := Luck(true, true)

  /**
   Handling what is on the bus now, and nothing else, ends with a copy that is the tree if it ends
   with a loaded one. A restart on the bus drops the copy, and nothing behind it can load another.
   */
  ghost predicate Settles(client: Client, bus: seq<Message>, tree: Tree, up: bool)
    decreases |bus|
  {
    if bus == [] then client.loaded ==> up && Mirrors(client.objects, tree)
    else Restarts(bus[0]) || Settles(Handle(client, bus[0], LUCKY), bus[1..], tree, up)
  }

  /** A message sent now reflects the tree, so it keeps what is on the bus on its way there. */
  lemma {:induction false} SettlesGrows(client: Client, bus: seq<Message>, tree: Tree, up: bool,
                                        message: Message, after: Tree, upAfter: bool)
    requires Settles(client, bus, tree, up) && WellFormedTree(tree)
    requires !Restarts(message) ==> up == upAfter
    requires IsSignal(message) ==> Announces(tree, message) && after == After(tree, message)
    requires message.ManagedObjects? ==> up && Lists(message.listing, tree)
    requires !IsSignal(message) && !Restarts(message) ==> after == tree
    ensures Settles(client, bus + [message], after, upAfter)
    decreases |bus|
  {
    var longer := bus + [message];
    if bus == [] {
      assert longer[1..] == [];
      if !Restarts(message) {
        var handled := Handle(client, message, LUCKY);
        if IsSignal(message) && client.loaded {
          MirrorsApply(client.objects, tree, message);
          assert handled.objects == Apply(client.objects, message);
        } else if message.ManagedObjects? {
          LoadMirrors(message.listing, tree);
        }
        assert Settles(handled, [], after, upAfter);
      }
    } else if !Restarts(bus[0]) {
      assert longer[1..] == bus[1..] + [message];
      SettlesGrows(Handle(client, bus[0], LUCKY), bus[1..], tree, up, message, after, upAfter);
    }
  }

  lemma {:induction false} SettlesUnloaded(client: Client, bus: seq<Message>, tree: Tree, up: bool)
    requires !client.loaded
    requires client.serial != 0 ==>
      forall i :: 0 <= i < |bus| && bus[i].ManagedObjects? ==> bus[i].serial != client.serial
    ensures Settles(client, bus, tree, up)
    decreases |bus|
  {
    if bus != [] && !Restarts(bus[0]) {
      SettlesUnloaded(Handle(client, bus[0], LUCKY), bus[1..], tree, up);
    }
  }

  /** The key step: a snapshot that overtook the signals on the bus survives all of them. */
  lemma {:induction false} SettlesAhead(client: Client, base: Tree, bus: seq<Message>, tree: Tree)
    requires client.loaded && client.serial == 0 && WellFormed(client.objects)
    requires History(base, bus, tree)
    requires forall path :: Tracks(Lookup(client.objects, path), Kept(base, path), Kept(tree, path))
    ensures Settles(client, bus, tree, true)
    decreases |bus|
  {
    if bus == [] {
      forall path ensures Shows(Lookup(client.objects, path), Kept(tree, path)) {
        TracksEnd(Lookup(client.objects, path), Kept(tree, path));
      }
    } else if IsSignal(bus[0]) {
      var handled := Handle(client, bus[0], LUCKY);
      assert handled.objects == Apply(client.objects, bus[0]);
      var next := After(base, bus[0]);
      forall path
        ensures WellFormed(handled.objects)
        ensures Tracks(Lookup(handled.objects, path), Kept(next, path), Kept(tree, path))
      {
        AfterCell(base, bus[0], path);
        ApplyCell(client.objects, bus[0], path);
        TracksStep(Lookup(client.objects, path), Kept(base, path), Kept(tree, path), path, EventAt(bus[0], path));
      }
      assert WellFormed(handled.objects) by {
        assert Tracks(Lookup(handled.objects, ""), Kept(next, ""), Kept(tree, ""));
      }
      SettlesAhead(handled, next, bus[1..], tree);
    } else if !Restarts(bus[0]) {
      SettlesAhead(client, base, bus[1..], tree);
    }
  }

  lemma {:induction false} SettlesAnySerial(client: Client, sent: nat, bus: seq<Message>, tree: Tree, up: bool)
    requires Settles(client, bus, tree, up)
    ensures Settles(client.(sent := sent), bus, tree, up)
    decreases |bus|
  {
    if bus != [] && !Restarts(bus[0]) {
      SettlesAnySerial(Handle(client, bus[0], LUCKY), sent, bus[1..], tree, up);
    }
  }

  // ---- the three parties -----------------------------------------------------------------

  /** `asked` holds the serials of the GetManagedObjects calls that may still be answered. */
  datatype System = System(up: bool, tree: Tree, bus: seq<Message>, client: Client, asked: set<nat>)

  datatype Step =
    | Announce(signal: Message)                      // bluetoothd changes its tree
    | Stop                                           // bluetoothd leaves the bus
    | Start(owner: string, born: Tree)               // a bluetoothd takes the name
    | Answer(serial: nat, listing: seq<Managed>)     // a snapshot, behind every signal before it
    | Refuse(serial: nat)                            // an error, from bluetoothd or the bus
    | Process(luck: Luck)                            // the backend handles one message
    | Fetch(listing: seq<Managed>, luck: Luck)       // a blocking fetch: overtakes the bus
    | FetchFailed                                    // ... or times out, its answer still to come
    | FetchDenied                                    // ... or is refused
    | Ask(luck: Luck)                                // a fetch without waiting

  ghost predicate Enabled(s: System, step: Step) {
    match step
    case Announce(signal) => s.up && IsSignal(signal) && Announces(s.tree, signal)
    case Stop => s.up
    case Start(owner, born) => owner != "" && WellFormedTree(born)
    case Answer(serial, listing) => s.up && serial in s.asked && Lists(listing, s.tree)
    case Refuse(serial) => serial in s.asked
    case Process(_) => s.bus != []
    case Fetch(listing, _) => s.up && !s.client.loaded && Lists(listing, s.tree)
    case FetchFailed => !s.client.loaded
    case FetchDenied => !s.client.loaded
    case Ask(_) => !s.client.loaded && s.client.serial == 0
  }

  function Take(s: System, step: Step): System
    requires step.Announce? ==> IsSignal(step.signal)
    requires step.Process? ==> s.bus != []
  {
    match step
    case Announce(signal) => s.(tree := After(s.tree, signal), bus := s.bus + [signal])
    case Stop => s.(up := false, tree := map[], bus := s.bus + [NameOwnerChanged("org.bluez", "")])
    case Start(owner, born) =>
      s.(up := true, tree := born, bus := s.bus + [NameOwnerChanged("org.bluez", owner)])
    case Answer(serial, listing) =>
      s.(bus := s.bus + [ManagedObjects(serial, listing)], asked := s.asked - {serial})
    case Refuse(serial) => s.(bus := s.bus + [ErrorReply(serial)], asked := s.asked - {serial})
    case Process(luck) =>
      var client := Handle(s.client, s.bus[0], luck);
      s.(bus := s.bus[1..], client := client,
         asked := if client.sent != s.client.sent then s.asked + {client.sent} else s.asked)
    case Fetch(listing, luck) =>
      s.(client := Ensure(s.client, Listed(listing), luck))
    case FetchFailed =>
      s.(client := Ensure(s.client, NoReply, LUCKY), asked := s.asked + {s.client.sent + 1})
    case FetchDenied => s.(client := Ensure(s.client, Denied, LUCKY))
    case Ask(luck) =>
      var client := Request(s.client, luck);
      s.(client := client, asked := if luck.queued then s.asked + {client.sent} else s.asked)
  }

  ghost predicate Initial(s: System) {
    && s.bus == [] && s.client == Client([], false, 0, 0) && s.asked == {}
    && WellFormedTree(s.tree)
  }

  ghost predicate Invariant(s: System) {
    && WellFormedTree(s.tree)
    && (s.client.loaded ==> s.client.serial == 0)
    && s.client.serial <= s.client.sent
    && (forall n :: n in s.asked ==> n <= s.client.sent)
    && (forall i :: 0 <= i < |s.bus| && s.bus[i].ManagedObjects? ==> s.bus[i].serial <= s.client.sent)
    && (exists base :: History(base, s.bus, s.tree))
    && Settles(s.client, s.bus, s.tree, s.up)
  }

  lemma SentKeeps(s: System, message: Message, after: Tree, upAfter: bool, asked: set<nat>)
    requires Invariant(s) && WellFormedTree(after) && asked <= s.asked
    requires !Restarts(message) ==> s.up == upAfter
    requires IsSignal(message) ==> Announces(s.tree, message) && after == After(s.tree, message)
    requires message.ManagedObjects? ==>
      s.up && Lists(message.listing, s.tree) && message.serial in s.asked
    requires !IsSignal(message) && !Restarts(message) ==> after == s.tree
    ensures Invariant(System(upAfter, after, s.bus + [message], s.client, asked))
  {
    var base :| History(base, s.bus, s.tree);
    HistoryGrows(base, s.bus, s.tree, message, after);
    SettlesGrows(s.client, s.bus, s.tree, s.up, message, after, upAfter);
  }

  /** What handling a message does to the serials, and that bad luck can only drop the copy. */
  lemma HandleSerials(client: Client, message: Message, luck: Luck)
    requires client.loaded ==> client.serial == 0
    requires client.serial <= client.sent
    ensures var next := Handle(client, message, luck);
            && (next.loaded ==> next.serial == 0) && next.serial <= next.sent
            && client.sent <= next.sent
            && (next.serial == 0 || next.serial == client.serial || next.serial > client.sent)
            && (next != Handle(client, message, LUCKY) || Restarts(message) ==>
                  !next.loaded && (next.serial == 0 || next.serial > client.sent))
  {
    hide AddInterfaces;
    hide RemoveInterfaces;
    hide ChangeProperties;
    hide LoadFrom;
  }

  lemma SettlesTail(client: Client, bus: seq<Message>, tree: Tree, up: bool)
    requires Settles(client, bus, tree, up) && bus != [] && !Restarts(bus[0])
    ensures Settles(Handle(client, bus[0], LUCKY), bus[1..], tree, up)
  {
  }

  lemma ProcessKeeps(s: System, luck: Luck)
    requires Invariant(s) && s.bus != []
    ensures Invariant(Take(s, Process(luck)))
  {
    hide Handle;
    hide Settles;
    hide History;
    var next := Take(s, Process(luck));
    var base :| History(base, s.bus, s.tree);
    HistoryTail(base, s.bus, s.tree);
    HandleSerials(s.client, s.bus[0], luck);
    if next.client == Handle(s.client, s.bus[0], LUCKY) && !Restarts(s.bus[0]) {
      SettlesTail(s.client, s.bus, s.tree, s.up);
    } else {
      SettlesUnloaded(next.client, next.bus, next.tree, next.up);
    }
  }

  lemma FetchKeeps(s: System, listing: seq<Managed>, luck: Luck)
    requires Invariant(s) && Enabled(s, Fetch(listing, luck))
    ensures Invariant(Take(s, Fetch(listing, luck)))
  {
    var next := Take(s, Fetch(listing, luck));
    if luck.memory {
      var base :| History(base, s.bus, s.tree);
      LoadMirrors(listing, s.tree);
      forall path ensures Tracks(Lookup(next.client.objects, path), Kept(base, path), Kept(s.tree, path)) {
        TracksStart(Lookup(next.client.objects, path), Kept(base, path), Kept(s.tree, path));
      }
      SettlesAhead(next.client, base, s.bus, s.tree);
    } else {
      SettlesUnloaded(next.client, s.bus, s.tree, s.up);
    }
  }

  lemma StepKeeps(s: System, step: Step)
    requires Invariant(s) && Enabled(s, step)
    ensures Invariant(Take(s, step))
  {
    match step
    case Announce(signal) =>
      AfterCell(s.tree, signal, "");
      SentKeeps(s, signal, After(s.tree, signal), s.up, s.asked);
    case Stop => SentKeeps(s, NameOwnerChanged("org.bluez", ""), map[], false, s.asked);
    case Start(owner, born) => SentKeeps(s, NameOwnerChanged("org.bluez", owner), born, true, s.asked);
    case Answer(serial, listing) =>
      SentKeeps(s, ManagedObjects(serial, listing), s.tree, s.up, s.asked - {serial});
    case Refuse(serial) => SentKeeps(s, ErrorReply(serial), s.tree, s.up, s.asked - {serial});
    case Process(luck) => ProcessKeeps(s, luck);
    case Fetch(listing, luck) => FetchKeeps(s, listing, luck);
    case FetchFailed => SettlesAnySerial(s.client, s.client.sent + 1, s.bus, s.tree, s.up);
    case FetchDenied => SettlesUnloaded(Take(s, step).client, s.bus, s.tree, s.up);
    case Ask(luck) => SettlesUnloaded(Request(s.client, luck), s.bus, s.tree, s.up);
  }

  // ---- every run -------------------------------------------------------------------------

  ghost predicate Follows(s: System, next: System) {
    exists step :: Enabled(s, step) && next == Take(s, step)
  }

  /** `run` is a run of the system: each state follows from the one before by an enabled step. */
  ghost predicate IsRun(run: seq<System>) {
    && run != [] && Initial(run[0])
    && forall i :: 0 < i < |run| ==> Follows(run[i - 1], run[i])
  }

  lemma FollowsKeeps(s: System, next: System)
    requires Invariant(s) && Follows(s, next)
    ensures Invariant(next)
  {
    var step :| Enabled(s, step) && next == Take(s, step);
    StepKeeps(s, step);
  }

  lemma {:induction false} RunInvariant(run: seq<System>, i: nat)
    requires IsRun(run) && i < |run|
    ensures Invariant(run[i])
    decreases i
  {
    if i == 0 {
      assert History(run[0].tree, run[0].bus, run[0].tree);
    } else {
      RunInvariant(run, i - 1);
      FollowsKeeps(run[i - 1], run[i]);
    }
  }

  /**
   Cache coherence. In every run, at every moment the bus is empty, a loaded copy is bluetoothd's
   tree; a fetch is never outstanding while a copy is held; and what is on the bus at any other
   moment takes a loaded copy to the tree once it is handled.
   */
  lemma Coherence(run: seq<System>, i: nat)
    requires IsRun(run) && i < |run|
    ensures run[i].client.loaded ==> run[i].client.serial == 0
    ensures run[i].bus == [] && run[i].client.loaded ==>
      run[i].up && Mirrors(run[i].client.objects, run[i].tree)
    ensures Settles(run[i].client, run[i].bus, run[i].tree, run[i].up)
  {
    RunInvariant(run, i);
  }

  /**
   Why `OneKept` is assumed. Were a path to carry two of the kept interfaces, losing one of them
   would leave its fields behind, and a copy that was the tree would stop being it: here a
   device's RSSI is still shown after the device went and came back unheard.
   */
  lemma SharedPathKeepsStaleFields()
    ensures
      var fields := NO_FIELDS.(rssi := -40, hasRssi := true);
      var held := [Object("/p", {Adapter, Device}, fields)];
      var lost := Apply(held, InterfacesRemoved("/p", [NameOf(Device)]));
      var again := Apply(lost, InterfacesAdded("/p", [Interface(NameOf(Device), [])]));
      again == held && Visible(Device, fields) != Project(Device, map[])
  {
    var fields := NO_FIELDS.(rssi := -40, hasRssi := true);
    var held := [Object("/p", {Adapter, Device}, fields)];
    var left := [Object("/p", {Adapter}, fields)];
    assert DropKinds({Adapter, Device}, [NameOf(Device)]) == {Adapter};
    assert RemoveInterfaces(held, "/p", [NameOf(Device)]) == left;
    assert {Adapter} + {Device} == {Adapter, Device};
    assert AddInterface(left, "/p", Device, []) == held;
    assert AddEach(left, "/p", [Interface(NameOf(Device), [])]) == held;
  }
}
