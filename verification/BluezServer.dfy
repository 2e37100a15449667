/**
 bluetoothd's own object tree, the changes it may make to it and the signals that announce them.

 What is assumed of bluetoothd is all in `Announces`, `Sound` and `WellFormedTree`: a path carries
 at most one of the kept interfaces, an interface is announced only when it was absent, kept
 properties keep their types, and of those only a device's RSSI, Name, Alias, Paired and UUIDs
 ever stop existing.
 */
module BluezServer {
  import opened Base
  import opened BluezTree

  // ---- bluetoothd's side -----------------------------------------------------------------

  type Properties = map<string, Variant>
  /** The interfaces of one object, kept or not, by name. */
  type Node = map<string, Properties>
  type Tree = map<string, Node>

  /** What the copy should hold for one path: the kept interface there and its values. */
  datatype Entry = Entry(kind: Kind, fields: Fields)

  function TextOf(properties: Properties, name: string, capacity: nat): string
    requires 0 < capacity
  {
    if name in properties && properties[name].Text? then Clip(properties[name].text, capacity) else ""
  }

  predicate Holds(properties: Properties, name: string, on: bool) {
    name in properties && properties[name] == Boolean(on)
  }

  /** The kept properties of an interface, read off the tree; a missing one has the value zero. */
  function Project(kind: Kind, properties: Properties): Fields {
    match kind
    case Adapter =>
      NO_FIELDS.(poweredOff := Holds(properties, "Powered", false),
                 discovering := Holds(properties, "Discovering", true))
    case Characteristic => NO_FIELDS.(uuid := TextOf(properties, "UUID", UUID_LEN))
    case Device =>
      var heard := "RSSI" in properties && properties["RSSI"].Int16?;
      NO_FIELDS.(
        address := TextOf(properties, "Address", ADDRESS_MAX),
        name := TextOf(properties, "Name", NAME_MAX),
        alias := TextOf(properties, "Alias", NAME_MAX),
        paired := Holds(properties, "Paired", true),
        hasRssi := heard,
        rssi := if heard then properties["RSSI"].number else 0,
        services := if "UUIDs" in properties && properties["UUIDs"].Strings?
                    then ClipAll(properties["UUIDs"].items) else [])
  }

  function Interfaces(tree: Tree, path: string): Node {
    if path in tree then tree[path] else map[]
  }

  function KeptIn(node: Node): Option<Entry> {
    if NameOf(Adapter) in node then Some(Entry(Adapter, Project(Adapter, node[NameOf(Adapter)])))
    else if NameOf(Device) in node then Some(Entry(Device, Project(Device, node[NameOf(Device)])))
    else if NameOf(Characteristic) in node then
      Some(Entry(Characteristic, Project(Characteristic, node[NameOf(Characteristic)])))
    else None
  }

  /** The tree restricted to the kept interfaces and properties, one path at a time. */
  function Kept(tree: Tree, path: string): Option<Entry> {
    if |path| >= HANDLE_MAX then None else KeptIn(Interfaces(tree, path))
  }

  /** No path carries two of the kept interfaces at once. */
  predicate OneKept(node: Node) {
    forall k, l :: NameOf(k) in node && NameOf(l) in node ==> k == l
  }

  /** A kept property always has the type the copy expects of it. */
  predicate WellTyped(kind: Kind, property: Property) {
    match kind
    case Adapter => property.name in {"Powered", "Discovering"} ==> property.value.Boolean?
    case Characteristic => property.name == "UUID" ==> property.value.Text?
    case Device =>
      && (property.name in {"Address", "Name", "Alias"} ==> property.value.Text?)
      && (property.name == "Paired" ==> property.value.Boolean?)
      && (property.name == "RSSI" ==> property.value.Int16?)
      && (property.name == "UUIDs" ==> property.value.Strings?)
  }

  predicate AllWellTyped(kind: Kind, properties: seq<Property>) {
    forall i :: 0 <= i < |properties| ==> WellTyped(kind, properties[i])
  }

  predicate Sound(interfaces: seq<Interface>) {
    && (forall i, j :: 0 <= i < j < |interfaces| ==> interfaces[i].name != interfaces[j].name)
    && (forall i, k :: 0 <= i < |interfaces| && KindOf(interfaces[i].name) == Some(k) ==>
          AllWellTyped(k, interfaces[i].properties))
  }

  /** Of the kept properties, only these of a device ever stop existing. */
  predicate MayInvalidate(kind: Kind, name: string) {
    match kind
    case Adapter => name != "Powered" && name != "Discovering"
    case Device => name != "Address"
    case Characteristic => name != "UUID"
  }

  function Assign(properties: Properties, changes: seq<Property>): Properties
    decreases |changes|
  {
    if changes == [] then properties
    else Assign(properties[changes[0].name := changes[0].value], changes[1..])
  }

  function Forget(properties: Properties, names: seq<string>): Properties
    decreases |names|
  {
    if names == [] then properties else Forget(properties - {names[0]}, names[1..])
  }

  function Gain(node: Node, interfaces: seq<Interface>): Node
    decreases |interfaces|
  {
    if interfaces == [] then node
    else Gain(node[interfaces[0].name := Assign(map[], interfaces[0].properties)], interfaces[1..])
  }

  function Lose(node: Node, names: seq<string>): Node {
    node - (set i | 0 <= i < |names| :: names[i])
  }

  predicate IsSignal(message: Message) {
    message.InterfacesAdded? || message.InterfacesRemoved? || message.PropertiesChanged?
  }

  /** The change to the tree that a signal announces. */
  function After(tree: Tree, signal: Message): Tree
    requires IsSignal(signal)
  {
    var node := Interfaces(tree, signal.path);
    match signal
    case InterfacesAdded(path, interfaces) => tree[path := Gain(node, interfaces)]
    case InterfacesRemoved(path, names) => tree[path := Lose(node, names)]
    case PropertiesChanged(path, name, changed, invalidated) =>
      if name !in node then tree
      else tree[path := node[name := Forget(Assign(node[name], changed), invalidated)]]
  }

  /** What bluetoothd may announce: real changes to a tree that stays within its own rules. */
  predicate Announces(tree: Tree, signal: Message)
    requires IsSignal(signal)
  {
    var node := Interfaces(tree, signal.path);
    match signal
    case InterfacesAdded(path, interfaces) =>
      && Sound(interfaces)
      && (forall i :: 0 <= i < |interfaces| ==> interfaces[i].name !in node)
      && OneKept(Gain(node, interfaces))
    case InterfacesRemoved(path, names) =>
      forall i :: 0 <= i < |names| ==> names[i] in node
    case PropertiesChanged(path, name, changed, invalidated) =>
      && name in node
      && (forall k :: KindOf(name) == Some(k) ==>
            && AllWellTyped(k, changed)
            && (forall i :: 0 <= i < |invalidated| ==> MayInvalidate(k, invalidated[i]))
            && (k == Characteristic ==> forall i :: 0 <= i < |changed| ==> changed[i].name != "UUID"))
  }

  predicate WellFormedTree(tree: Tree) {
    forall path :: path in tree ==> OneKept(tree[path])
  }

  // ---- the projection follows the signals ------------------------------------------------

  lemma ProjectSet(kind: Kind, properties: Properties, change: Property)
    requires WellTyped(kind, change)
    ensures Project(kind, properties[change.name := change.value])
            == Put(Project(kind, properties), Setting(kind, change))
  {
    hide Clip;
    hide ClipAll;
    if kind == Device {
      DeviceSet(properties, change);
    }
  }

  /** A property says nothing about the others. */
  lemma Untouched(properties: Properties, more: Properties, name: string, other: string)
    requires forall n :: n != name ==> (n in more <==> n in properties) && (n in more ==> more[n] == properties[n])
    ensures other != name ==>
      && (forall room: nat | room > 0 :: TextOf(more, other, room) == TextOf(properties, other, room))
      && (forall on :: Holds(more, other, on) == Holds(properties, other, on))
      && (other in more <==> other in properties) && (other in more ==> more[other] == properties[other])
  {
  }

  /** Whichever of a device's properties is not the one that changed reads as before. */
  lemma DeviceOthers(properties: Properties, more: Properties, name: string)
    requires forall n :: n != name ==> (n in more <==> n in properties) && (n in more ==> more[n] == properties[n])
    ensures var p, q := Project(Device, more), Project(Device, properties);
            && (name != "Address" ==> p.address == q.address) && (name != "Name" ==> p.name == q.name)
            && (name != "Alias" ==> p.alias == q.alias) && (name != "Paired" ==> p.paired == q.paired)
            && (name != "RSSI" ==> p.rssi == q.rssi && p.hasRssi == q.hasRssi)
            && (name != "UUIDs" ==> p.services == q.services)
            && p == NO_FIELDS.(address := p.address, name := p.name, alias := p.alias, paired := p.paired,
                               rssi := p.rssi, hasRssi := p.hasRssi, services := p.services)
  {
    hide TextOf;
    hide Holds;
    hide ClipAll;
    Untouched(properties, more, name, "Address");
    Untouched(properties, more, name, "Name");
    Untouched(properties, more, name, "Alias");
    Untouched(properties, more, name, "Paired");
    Untouched(properties, more, name, "RSSI");
    Untouched(properties, more, name, "UUIDs");
  }

  lemma DeviceSet(properties: Properties, change: Property)
    requires WellTyped(Device, change)
    ensures Project(Device, properties[change.name := change.value])
            == Put(Project(Device, properties), Setting(Device, change))
  {
    hide Clip;
    hide ClipAll;
    var more := properties[change.name := change.value];
    DeviceOthers(properties, more, change.name);
    DeviceOthers(properties, properties, change.name);
    DeviceOwn(properties, change);
    hide Project;
  }

  /** The property that changed reads as what it was changed to. */
  lemma DeviceOwn(properties: Properties, change: Property)
    requires WellTyped(Device, change)
    ensures var p := Project(Device, properties[change.name := change.value]);
            match Setting(Device, change)
            case Address(address) => p.address == address && change.name == "Address"
            case Name(name) => p.name == name && change.name == "Name"
            case Alias(alias) => p.alias == alias && change.name == "Alias"
            case Paired(paired) => p.paired == paired && change.name == "Paired"
            case Rssi(rssi, has) => p.rssi == rssi && p.hasRssi == has && change.name == "RSSI"
            case Services(services) => p.services == services && change.name == "UUIDs"
            case _ => change.name !in {"Address", "Name", "Alias", "Paired", "RSSI", "UUIDs"}
  {
    hide Clip;
    hide ClipAll;
  }

  lemma ProjectUnset(kind: Kind, properties: Properties, name: string)
    requires MayInvalidate(kind, name)
    ensures Project(kind, properties - {name}) == Put(Project(kind, properties), Unsetting(kind, name))
  {
    hide Clip;
    hide ClipAll;
    if kind == Device {
      DeviceUnset(properties, name);
    }
  }

  lemma DeviceUnset(properties: Properties, name: string)
    requires MayInvalidate(Device, name)
    ensures Project(Device, properties - {name}) == Put(Project(Device, properties), Unsetting(Device, name))
  {
    hide ClipAll;
    var left := properties - {name};
    DeviceOthers(properties, left, name);
    DeviceOthers(properties, properties, name);
  }

  lemma {:induction false} ProjectAssign(kind: Kind, properties: Properties, changes: seq<Property>)
    requires AllWellTyped(kind, changes)
    ensures Project(kind, Assign(properties, changes))
            == SetProperties(Project(kind, properties), kind, changes)
    decreases |changes|
  {
    if changes != [] {
      ProjectSet(kind, properties, changes[0]);
      ProjectAssign(kind, properties[changes[0].name := changes[0].value], changes[1..]);
    }
  }

  lemma {:induction false} ProjectForget(kind: Kind, properties: Properties, names: seq<string>)
    requires forall i :: 0 <= i < |names| ==> MayInvalidate(kind, names[i])
    ensures Project(kind, Forget(properties, names))
            == UnsetProperties(Project(kind, properties), kind, names)
    decreases |names|
  {
    if names != [] {
      ProjectUnset(kind, properties, names[0]);
      ProjectForget(kind, properties - {names[0]}, names[1..]);
    }
  }
}
