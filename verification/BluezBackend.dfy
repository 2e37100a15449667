/**
 The backend's own code: the objects array, updated in place by the handlers, each proved to do
 what the functions of `BluezTree` say.
 */
module BluezBackend {
  import opened Base
  import opened BluezTree

  class Backend {
    var objects: seq<Object>
    var loaded: bool
    var serial: nat
    var sent: nat

    ghost function State(): Client
      reads this
    {
      Client(objects, loaded, serial, sent)
    }

    constructor ()
      ensures State() == Client([], false, 0, 0)
    {
      objects, loaded, serial, sent := [], false, 0, 0;
    }

    method ObjectFind(path: string) returns (index: nat)
      ensures index == Find(objects, path)
    {
      index := 0;
      while index < |objects|
        invariant index <= |objects|
        invariant Find(objects, path) == index + Find(objects[index..], path)
      {
        if objects[index].path == path {
          return;
        }
        assert objects[index..][1..] == objects[index + 1..];
        index := index + 1;
      }
    }

    /** The object at `path`, appended if there is none. */
    method ObjectAdd(path: string) returns (index: nat)
      modifies this`objects
      ensures index == Find(old(objects), path)
      ensures objects == if index < |old(objects)| then old(objects) else old(objects) + [Fresh(path)]
    {
      index := ObjectFind(path);
      if index == |objects| {
        objects := objects + [Fresh(path)];
      }
    }

    /** Takes one object out; those behind it move up. */
    method ObjectRemove(index: nat)
      requires index < |objects|
      modifies this`objects
      ensures objects == old(objects)[..index] + old(objects)[index + 1..]
    {
      objects := objects[..index] + objects[index + 1..];
    }

    method ObjectsClear()
      modifies this`objects, this`loaded
      ensures State() == Clear(old(State()))
    {
      objects := [];
      loaded := false;
    }

    method ObjectSetProperties(index: nat, kind: Kind, properties: seq<Property>)
      requires index < |objects|
      modifies this`objects
      ensures objects == old(objects)[index := old(objects)[index].(
                           fields := SetProperties(old(objects)[index].fields, kind, properties))]
    {
      ghost var was := objects;
      for i := 0 to |properties|
        invariant |objects| == |was| && objects == was[index := objects[index]]
        invariant objects[index] == was[index].(fields := objects[index].fields)
        invariant SetProperties(objects[index].fields, kind, properties[i..])
                  == SetProperties(was[index].fields, kind, properties)
      {
        assert properties[i..][1..] == properties[i + 1..];
        var fields := Put(objects[index].fields, Setting(kind, properties[i]));
        objects := objects[index := objects[index].(fields := fields)];
      }
      assert properties[|properties|..] == [];
    }

    method ObjectUnsetProperties(index: nat, kind: Kind, names: seq<string>)
      requires index < |objects|
      modifies this`objects
      ensures objects == old(objects)[index := old(objects)[index].(
                           fields := UnsetProperties(old(objects)[index].fields, kind, names))]
    {
      ghost var was := objects;
      for i := 0 to |names|
        invariant |objects| == |was| && objects == was[index := objects[index]]
        invariant objects[index] == was[index].(fields := objects[index].fields)
        invariant UnsetProperties(objects[index].fields, kind, names[i..])
                  == UnsetProperties(was[index].fields, kind, names)
      {
        assert names[i..][1..] == names[i + 1..];
        objects := objects[index := objects[index].(fields := Put(objects[index].fields, Unsetting(kind, names[i])))];
      }
      assert names[|names|..] == [];
    }

    method ObjectsAddInterfaces(path: string, interfaces: seq<Interface>)
      modifies this`objects
      ensures objects == AddInterfaces(old(objects), path, interfaces)
    {
      if |path| >= HANDLE_MAX {
        return;
      }
      for i := 0 to |interfaces|
        invariant AddEach(objects, path, interfaces[i..]) == AddEach(old(objects), path, interfaces)
      {
        assert interfaces[i..][1..] == interfaces[i + 1..];
        var kind := KindOf(interfaces[i].name);
        if kind == None {
          continue;
        }
        ghost var before := objects;
        var index := ObjectAdd(path);
        objects := objects[index := objects[index].(interfaces := objects[index].interfaces + {kind.value})];
        ObjectSetProperties(index, kind.value, interfaces[i].properties);
        assert objects == AddInterface(before, path, kind.value, interfaces[i].properties);
      }
      assert interfaces[|interfaces|..] == [];
    }

    method ObjectsRemoveInterfaces(path: string, names: seq<string>)
      modifies this`objects
      ensures objects == RemoveInterfaces(old(objects), path, names)
    {
      var index := ObjectFind(path);
      if index == |objects| {
        return;
      }
      ghost var was := objects;
      for i := 0 to |names|
        invariant index < |objects| == |was| && objects == was[index := objects[index]]
        invariant objects[index] == was[index].(interfaces := objects[index].interfaces)
        invariant DropKinds(objects[index].interfaces, names[i..]) == DropKinds(was[index].interfaces, names)
      {
        assert names[i..][1..] == names[i + 1..];
        var kind := KindOf(names[i]);
        if kind != None {
          objects := objects[index := objects[index].(interfaces := objects[index].interfaces - {kind.value})];
        }
      }
      assert names[|names|..] == [];
      if objects[index].interfaces == {} {
        ObjectRemove(index);
        assert objects == was[..index] + was[index + 1..];
      }
    }

    method ObjectsLoad(listing: seq<Managed>, luck: Luck)
      modifies this`objects, this`loaded
      ensures State() == Load(old(State()), listing, luck)
    {
      ObjectsClear();
      if !luck.memory {
        return;
      }
      for i := 0 to |listing|
        invariant !loaded
        invariant LoadFrom(objects, listing[i..]) == LoadFrom([], listing)
      {
        assert listing[i..][1..] == listing[i + 1..];
        ObjectsAddInterfaces(listing[i].path, listing[i].interfaces);
      }
      assert listing[|listing|..] == [];
      loaded := true;
    }

    method ObjectsRequest(luck: Luck)
      modifies this`serial, this`sent
      ensures State() == Request(old(State()), luck)
    {
      serial := 0;
      if luck.queued {
        sent := sent + 1;
        serial := sent;
      }
    }

    /** True if there is a copy to look things up in. */
    method ObjectsEnsure(fetched: Fetched, luck: Luck) returns (ok: bool)
      modifies this`objects, this`loaded, this`serial, this`sent
      ensures State() == Ensure(old(State()), fetched, luck)
      ensures ok == loaded
    {
      if loaded {
        return true;
      }
      if fetched.NoCall? {
        return false;
      }
      sent := sent + 1;
      if fetched.NoReply? {
        return false;
      }
      serial := 0;
      if fetched.Denied? {
        return false;
      }
      ObjectsLoad(fetched.listing, luck);
      return loaded;
    }

    method ObjectsPropertiesChanged(path: string, kind: Kind, changed: seq<Property>, invalidated: seq<string>,
                                    luck: Luck)
      requires kind != Characteristic
      modifies this`objects, this`loaded
      ensures State() == Handle(old(State()), PropertiesChanged(path, NameOf(kind), changed, invalidated), luck)
    {
      if !loaded {
        return;
      }
      var index := ObjectFind(path);
      if index == |objects| || kind !in objects[index].interfaces {
        return;
      }
      if !luck.memory {
        ObjectsClear();
        return;
      }
      ObjectSetProperties(index, kind, changed);
      ObjectUnsetProperties(index, kind, invalidated);
      assert objects == ChangeProperties(old(objects), path, kind, changed, invalidated);
    }

    /** One message off the connection: the fetch it may answer, else the signal it may be. */
    method HandleMessage(message: Message, luck: Luck)
      modifies this
      ensures State() == Handle(old(State()), message, luck)
    {
      match message
      case ManagedObjects(answered, listing) =>
        if answered != 0 && answered == serial {
          serial := 0;
          ObjectsLoad(listing, luck);
        }
      case ErrorReply(answered) =>
        if answered != 0 && answered == serial {
          serial := 0;
        }
      case NameOwnerChanged(service, newOwner) =>
        if service == "org.bluez" {
          ObjectsClear();
          serial := 0;
          if newOwner != "" {
            ObjectsRequest(luck);
          }
        }
      case InterfacesAdded(path, interfaces) =>
        if loaded {
          if luck.memory {
            ObjectsAddInterfaces(path, interfaces);
          } else {
            ObjectsClear();
          }
        }
      case InterfacesRemoved(path, names) =>
        if loaded {
          ObjectsRemoveInterfaces(path, names);
        }
      case PropertiesChanged(path, name, changed, invalidated) =>
        var kind := KindOf(name);
        if kind == Some(Device) || kind == Some(Adapter) {
          ObjectsPropertiesChanged(path, kind.value, changed, invalidated, luck);
        }
    }
  }
}
