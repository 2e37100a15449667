/**
 What each D-Bus message does to the objects kept of bluetoothd.

 Everything here is a function of values; `BluezBackend` holds the code that updates the copy in
 place and is proved against these functions, and `BluezSystem` runs them against a server.
 */
module BluezTree {
  import opened Base

  const HANDLE_MAX := 128
  const ADDRESS_MAX := 40
  const NAME_MAX := 64
  const UUID_LEN := 37

  // ---- D-Bus values ----------------------------------------------------------------------

  datatype Variant =
    | Text(text: string)
    | Boolean(on: bool)
    | Int16(number: int)
    | Strings(items: seq<string>)
    | Other

  datatype Property = Property(name: string, value: Variant)

  /** One entry of an `a{sa{sv}}`: an interface and some or all of its properties. */
  datatype Interface = Interface(name: string, properties: seq<Property>)

  /** One object of a GetManagedObjects reply. */
  datatype Managed = Managed(path: string, interfaces: seq<Interface>)

  datatype Message =
    | InterfacesAdded(path: string, interfaces: seq<Interface>)
    | InterfacesRemoved(path: string, names: seq<string>)
    | PropertiesChanged(path: string, name: string, changed: seq<Property>, invalidated: seq<string>)
    | NameOwnerChanged(service: string, newOwner: string)
    | ManagedObjects(serial: nat, listing: seq<Managed>)
    | ErrorReply(serial: nat)

  // ---- the copy --------------------------------------------------------------------------

  /** The three interfaces the copy keeps; the source has one bit of a mask for each. */
  datatype Kind = Adapter | Device | Characteristic

  function KindOf(name: string): Option<Kind> {
    if name == "org.bluez.Adapter1" then Some(Adapter)
    else if name == "org.bluez.Device1" then Some(Device)
    else if name == "org.bluez.GattCharacteristic1" then Some(Characteristic)
    else None
  }

  function NameOf(kind: Kind): (name: string)
    ensures KindOf(name) == Some(kind)
  {
    match kind
    case Adapter => "org.bluez.Adapter1"
    case Device => "org.bluez.Device1"
    case Characteristic => "org.bluez.GattCharacteristic1"
  }

  datatype Fields = Fields(
    poweredOff: bool, discovering: bool,
    address: string, name: string, alias: string, rssi: int, hasRssi: bool, paired: bool,
    services: seq<string>,
    uuid: string)

  const NO_FIELDS := Fields(false, false, "", "", "", 0, false, false, [], "")

  datatype Object = Object(path: string, interfaces: set<Kind>, fields: Fields)

  /** A bounded string copy: all of `text`, or as much as leaves room for the terminator. */
  function Clip(text: string, capacity: nat): string
    requires 0 < capacity
  {
    if |text| < capacity then text else text[..capacity - 1]
  }

  function ClipAll(items: seq<string>): seq<string> {
    seq(|items|, i requires 0 <= i < |items| => Clip(items[i], UUID_LEN))
  }

  /** What one property says, as the field it sets. */
  datatype Write =
    | PoweredOff(off: bool)
    | Discovering(on: bool)
    | Address(address: string)
    | Name(name: string)
    | Alias(alias: string)
    | Paired(paired: bool)
    | Rssi(rssi: int, has: bool)
    | Services(services: seq<string>)
    | Uuid(uuid: string)
    | Skip

  function Put(fields: Fields, write: Write): Fields {
    match write
    case PoweredOff(off) => fields.(poweredOff := off)
    case Discovering(on) => fields.(discovering := on)
    case Address(address) => fields.(address := address)
    case Name(name) => fields.(name := name)
    case Alias(alias) => fields.(alias := alias)
    case Paired(paired) => fields.(paired := paired)
    case Rssi(rssi, has) => fields.(rssi := rssi, hasRssi := has)
    case Services(services) => fields.(services := services)
    case Uuid(uuid) => fields.(uuid := uuid)
    case Skip => fields
  }

  function Setting(kind: Kind, property: Property): Write {
    match (kind, property.value)
    case (Adapter, Boolean(on)) =>
      if property.name == "Powered" then PoweredOff(!on)
      else if property.name == "Discovering" then Discovering(on)
      else Skip
    case (Characteristic, Text(text)) =>
      if property.name == "UUID" then Uuid(Clip(text, UUID_LEN)) else Skip
    case (Device, Text(text)) =>
      if property.name == "Address" then Address(Clip(text, ADDRESS_MAX))
      else if property.name == "Name" then Name(Clip(text, NAME_MAX))
      else if property.name == "Alias" then Alias(Clip(text, NAME_MAX))
      else Skip
    case (Device, Boolean(on)) =>
      if property.name == "Paired" then Paired(on) else Skip
    case (Device, Int16(number)) =>
      if property.name == "RSSI" then Rssi(number, true) else Skip
    case (Device, Strings(items)) =>
      if property.name == "UUIDs" then Services(ClipAll(items)) else Skip
    case _ => Skip
  }

  function Unsetting(kind: Kind, name: string): Write {
    if kind != Device then Skip
    else if name == "RSSI" then Rssi(0, false)
    else if name == "Name" then Name("")
    else if name == "Alias" then Alias("")
    else if name == "Paired" then Paired(false)
    else if name == "UUIDs" then Services([])
    else Skip
  }

  function SetProperties(fields: Fields, kind: Kind, properties: seq<Property>): Fields
    decreases |properties|
  {
    if properties == [] then fields
    else SetProperties(Put(fields, Setting(kind, properties[0])), kind, properties[1..])
  }

  function UnsetProperties(fields: Fields, kind: Kind, names: seq<string>): Fields
    decreases |names|
  {
    if names == [] then fields
    else UnsetProperties(Put(fields, Unsetting(kind, names[0])), kind, names[1..])
  }

  /** Where the object at `path` is, or the length of the copy when it has none. */
  function Find(objects: seq<Object>, path: string): (i: nat)
    ensures i <= |objects|
    ensures forall j :: 0 <= j < i ==> objects[j].path != path
    ensures i < |objects| ==> objects[i].path == path
  {
    if objects == [] then 0
    else if objects[0].path == path then 0
    else 1 + Find(objects[1..], path)
  }

  function Fresh(path: string): Object {
    Object(path, {}, NO_FIELDS)
  }

  function AddInterface(objects: seq<Object>, path: string, kind: Kind, properties: seq<Property>): seq<Object> {
    var i := Find(objects, path);
    var grown := if i < |objects| then objects else objects + [Fresh(path)];
    grown[i := Object(path, grown[i].interfaces + {kind},
                      SetProperties(grown[i].fields, kind, properties))]
  }

  function AddEach(objects: seq<Object>, path: string, interfaces: seq<Interface>): seq<Object>
    decreases |interfaces|
  {
    if interfaces == [] then objects
    else match KindOf(interfaces[0].name)
      case None => AddEach(objects, path, interfaces[1..])
      case Some(kind) =>
        AddEach(AddInterface(objects, path, kind, interfaces[0].properties), path, interfaces[1..])
  }

  function AddInterfaces(objects: seq<Object>, path: string, interfaces: seq<Interface>): seq<Object> {
    if |path| >= HANDLE_MAX then objects else AddEach(objects, path, interfaces)
  }

  function DropKinds(kinds: set<Kind>, names: seq<string>): set<Kind> {
    if names == [] then kinds
    else match KindOf(names[0])
      case None => DropKinds(kinds, names[1..])
      case Some(kind) => DropKinds(kinds - {kind}, names[1..])
  }

  function RemoveInterfaces(objects: seq<Object>, path: string, names: seq<string>): seq<Object> {
    var i := Find(objects, path);
    if i == |objects| then objects
    else
      var left := DropKinds(objects[i].interfaces, names);
      if left == {} then objects[..i] + objects[i + 1..]
      else objects[i := objects[i].(interfaces := left)]
  }

  /** Whether a PropertiesChanged for `kind` at `path` is about something the copy holds. */
  predicate Changes(objects: seq<Object>, path: string, kind: Kind) {
    var i := Find(objects, path);
    i < |objects| && kind in objects[i].interfaces
  }

  function ChangeProperties(objects: seq<Object>, path: string, kind: Kind,
                            changed: seq<Property>, invalidated: seq<string>): seq<Object> {
    var i := Find(objects, path);
    if !Changes(objects, path, kind) then objects
    else
      var set' := SetProperties(objects[i].fields, kind, changed);
      objects[i := objects[i].(fields := UnsetProperties(set', kind, invalidated))]
  }

  function LoadFrom(objects: seq<Object>, listing: seq<Managed>): seq<Object>
    decreases |listing|
  {
    if listing == [] then objects
    else LoadFrom(AddInterfaces(objects, listing[0].path, listing[0].interfaces), listing[1..])
  }

  // ---- the backend's state ---------------------------------------------------------------

  /**
   `serial` is that of a snapshot asked for and still to come, or 0; `sent` counts the serials
   the connection has used, so `sent + 1` is the next one.
   */
  datatype Client = Client(objects: seq<Object>, loaded: bool, serial: nat, sent: nat)

  /**
   What a step cannot decide for itself: whether there was memory for everything it had to keep,
   and whether a call it made could be queued.
   */
  datatype Luck = Luck(memory: bool, queued: bool)

  function Clear(client: Client): Client {
    client.(objects := [], loaded := false)
  }

  function Load(client: Client, listing: seq<Managed>, luck: Luck): Client {
    if luck.memory then client.(objects := LoadFrom([], listing), loaded := true)
    else Clear(client)
  }

  function Request(client: Client, luck: Luck): Client {
    if luck.queued then client.(serial := client.sent + 1, sent := client.sent + 1)
    else client.(serial := 0)
  }

  /** How a blocking fetch ends: it cannot be made, times out, is refused, or brings a listing. */
  datatype Fetched = NoCall | NoReply | Denied | Listed(listing: seq<Managed>)

  /** A copy that is there is left alone; otherwise one is fetched, and whatever was asked for before is stale. */
  function Ensure(client: Client, fetched: Fetched, luck: Luck): Client {
    if client.loaded then client
    else match fetched
      case NoCall => client
      case NoReply => client.(sent := client.sent + 1)
      case Denied => client.(serial := 0, sent := client.sent + 1)
      case Listed(listing) => Load(client.(serial := 0, sent := client.sent + 1), listing, luck)
  }

  function Handle(client: Client, message: Message, luck: Luck): Client {
    match message
    case InterfacesAdded(path, interfaces) =>
      if !client.loaded then client
      else if !luck.memory then Clear(client)
      else client.(objects := AddInterfaces(client.objects, path, interfaces))
    case InterfacesRemoved(path, names) =>
      if !client.loaded then client
      else client.(objects := RemoveInterfaces(client.objects, path, names))
    case PropertiesChanged(path, name, changed, invalidated) =>
      var kind := KindOf(name);
      if !client.loaded || kind == None || kind == Some(Characteristic) then client
      else if !luck.memory && Changes(client.objects, path, kind.value) then Clear(client)
      else client.(objects := ChangeProperties(client.objects, path, kind.value, changed, invalidated))
    case NameOwnerChanged(service, newOwner) =>
      if service != "org.bluez" then client
      else
        var gone := Clear(client).(serial := 0);
        if newOwner == "" then gone else Request(gone, luck)
    case ManagedObjects(serial, listing) =>
      if serial == 0 || serial != client.serial then client
      else Load(client.(serial := 0), listing, luck)
    case ErrorReply(serial) =>
      if serial == 0 || serial != client.serial then client
      else client.(serial := 0)
  }
}
