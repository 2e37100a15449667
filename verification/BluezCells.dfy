/**
 One path at a time. A message touches the copy and the tree at a single path, in one of four
 ways, so both can be followed as a cell that takes the same steps.
 */
module BluezCells {
  import opened Base
  import opened BluezTree
  import opened BluezServer

  // ---- looking one path up ---------------------------------------------------------------

  /** One object a path, none without a kept interface, none whose path is too long to keep. */
  predicate WellFormed(objects: seq<Object>) {
    && (forall i, j :: 0 <= i < j < |objects| ==> objects[i].path != objects[j].path)
    && (forall i :: 0 <= i < |objects| ==> objects[i].interfaces != {} && |objects[i].path| < HANDLE_MAX)
  }

  function Lookup(objects: seq<Object>, path: string): Option<Object> {
    var i := Find(objects, path);
    if i < |objects| then Some(objects[i]) else None
  }

  lemma LookupAt(objects: seq<Object>, i: nat)
    requires WellFormed(objects) && i < |objects|
    ensures Lookup(objects, objects[i].path) == Some(objects[i])
  {
  }

  lemma LookupMissing(objects: seq<Object>, path: string)
    requires forall i :: 0 <= i < |objects| ==> objects[i].path != path
    ensures Lookup(objects, path) == None
  {
  }

  lemma LookupReplaced(objects: seq<Object>, i: nat, item: Object, path: string)
    requires WellFormed(objects) && i < |objects|
    requires item.path == objects[i].path && item.interfaces != {}
    ensures WellFormed(objects[i := item])
    ensures Lookup(objects[i := item], path)
            == if path == item.path then Some(item) else Lookup(objects, path)
  {
    var replaced := objects[i := item];
    if path == item.path {
      LookupAt(replaced, i);
    } else {
      var j := Find(objects, path);
      if j < |objects| {
        assert replaced[j] == objects[j];
        LookupAt(replaced, j);
      } else {
        LookupMissing(replaced, path);
      }
    }
  }

  lemma LookupAppended(objects: seq<Object>, item: Object, path: string)
    requires WellFormed(objects) && Find(objects, item.path) == |objects|
    requires item.interfaces != {} && |item.path| < HANDLE_MAX
    ensures WellFormed(objects + [item])
    ensures Lookup(objects + [item], path)
            == if path == item.path then Some(item) else Lookup(objects, path)
  {
    var longer := objects + [item];
    if path == item.path {
      LookupAt(longer, |objects|);
    } else {
      var j := Find(objects, path);
      if j < |objects| {
        assert longer[j] == objects[j];
        LookupAt(longer, j);
      } else {
        LookupMissing(longer, path);
      }
    }
  }

  lemma LookupRemoved(objects: seq<Object>, i: nat, path: string)
    requires WellFormed(objects) && i < |objects|
    ensures WellFormed(objects[..i] + objects[i + 1..])
    ensures Lookup(objects[..i] + objects[i + 1..], path)
            == if path == objects[i].path then None else Lookup(objects, path)
  {
    var shorter := objects[..i] + objects[i + 1..];
    assert forall k :: 0 <= k < |shorter| ==> shorter[k] == objects[if k < i then k else k + 1];
    if path == objects[i].path {
      LookupMissing(shorter, path);
    } else {
      var j := Find(objects, path);
      if j < |objects| {
        var k := if j < i then j else j - 1;
        assert shorter[k] == objects[j];
        LookupAt(shorter, k);
      } else {
        LookupMissing(shorter, path);
      }
    }
  }

  // ---- the four things a message can do to a path ----------------------------------------

  datatype CellEvent =
    | Appear(kind: Kind, properties: seq<Property>)
    | Vanish(kinds: set<Kind>)
    | Touch(touched: Kind, changed: seq<Property>, invalidated: seq<string>)
    | Quiet

  /** The first kept interface of a list: the only one, of a sound announcement. */
  function FirstKept(interfaces: seq<Interface>): CellEvent {
    if interfaces == [] then Quiet
    else match KindOf(interfaces[0].name)
      case Some(kind) => Appear(kind, interfaces[0].properties)
      case None => FirstKept(interfaces[1..])
  }

  function KindsOf(names: seq<string>): set<Kind> {
    if names == [] then {}
    else match KindOf(names[0])
      case None => KindsOf(names[1..])
      case Some(kind) => {kind} + KindsOf(names[1..])
  }

  function EventAt(signal: Message, path: string): CellEvent
    requires IsSignal(signal)
  {
    if signal.path != path || |path| >= HANDLE_MAX then Quiet
    else match signal
      case InterfacesAdded(_, interfaces) => FirstKept(interfaces)
      case InterfacesRemoved(_, names) => Vanish(KindsOf(names))
      case PropertiesChanged(_, name, changed, invalidated) =>
        match KindOf(name)
        case Some(kind) => if kind == Characteristic then Quiet else Touch(kind, changed, invalidated)
        case None => Quiet
  }

  /** The event, on the copy. */
  function StepObject(item: Option<Object>, path: string, event: CellEvent): Option<Object> {
    match event
    case Quiet => item
    case Appear(kind, properties) =>
      var was := if item.Some? then item.value else Fresh(path);
      Some(Object(path, was.interfaces + {kind}, SetProperties(was.fields, kind, properties)))
    case Vanish(kinds) =>
      if item.None? then None
      else if item.value.interfaces - kinds == {} then None
      else Some(item.value.(interfaces := item.value.interfaces - kinds))
    case Touch(kind, changed, invalidated) =>
      if item.None? || kind !in item.value.interfaces then item
      else
        var fields := SetProperties(item.value.fields, kind, changed);
        Some(item.value.(fields := UnsetProperties(fields, kind, invalidated)))
  }

  /** The event, on the tree's projection. */
  function StepEntry(entry: Option<Entry>, event: CellEvent): Option<Entry> {
    match event
    case Quiet => entry
    case Appear(kind, properties) => Some(Entry(kind, SetProperties(NO_FIELDS, kind, properties)))
    case Vanish(kinds) => if entry.Some? && entry.value.kind in kinds then None else entry
    case Touch(kind, changed, invalidated) =>
      if entry.None? || kind != entry.value.kind then entry
      else
        var fields := SetProperties(entry.value.fields, kind, changed);
        Some(Entry(kind, UnsetProperties(fields, kind, invalidated)))
  }

  /** When the event is one bluetoothd announces of a path whose projection is `entry`. */
  predicate Possible(entry: Option<Entry>, event: CellEvent) {
    match event
    case Quiet => true
    case Appear(_, _) => entry.None?
    case Vanish(kinds) => forall k :: k in kinds ==> entry.Some? && entry.value.kind == k
    case Touch(kind, _, _) => entry.Some? && entry.value.kind == kind
  }

  // ---- the copy takes the step -----------------------------------------------------------

  function Apply(objects: seq<Object>, signal: Message): seq<Object>
    requires IsSignal(signal)
  {
    Handle(Client(objects, true, 0, 0), signal, Luck(true, true)).objects
  }

  predicate AtMostOneKept(interfaces: seq<Interface>) {
    forall i, j | 0 <= i < |interfaces| && 0 <= j < |interfaces| ::
      KindOf(interfaces[i].name).Some? && KindOf(interfaces[j].name).Some? ==> i == j
  }

  lemma {:induction false} AddNothing(objects: seq<Object>, path: string, interfaces: seq<Interface>)
    requires forall i :: 0 <= i < |interfaces| ==> KindOf(interfaces[i].name).None?
    ensures AddEach(objects, path, interfaces) == objects
    decreases |interfaces|
  {
    if interfaces != [] {
      AddNothing(objects, path, interfaces[1..]);
    }
  }

  lemma {:induction false} AddCell(objects: seq<Object>, path: string, interfaces: seq<Interface>, at: string)
    requires WellFormed(objects) && |path| < HANDLE_MAX && AtMostOneKept(interfaces)
    ensures WellFormed(AddEach(objects, path, interfaces))
    ensures Lookup(AddEach(objects, path, interfaces), at)
            == if at == path then StepObject(Lookup(objects, at), at, FirstKept(interfaces))
               else Lookup(objects, at)
    decreases |interfaces|
  {
    if interfaces != [] {
      var rest := interfaces[1..];
      assert forall i :: 0 <= i < |rest| ==> rest[i] == interfaces[i + 1];
      match KindOf(interfaces[0].name)
      case None =>
        AddCell(objects, path, rest, at);
      case Some(kind) =>
        var added := AddInterface(objects, path, kind, interfaces[0].properties);
        var i := Find(objects, path);
        if i < |objects| {
          LookupReplaced(objects, i, added[i], at);
        } else {
          assert added == objects + [added[i]];
          LookupAppended(objects, added[i], at);
        }
        AddNothing(added, path, rest);
    }
  }

  lemma {:induction false} DropIsDifference(kinds: set<Kind>, names: seq<string>)
    ensures DropKinds(kinds, names) == kinds - KindsOf(names)
    decreases |names|
  {
    if names != [] {
      match KindOf(names[0])
      case None => DropIsDifference(kinds, names[1..]);
      case Some(kind) => DropIsDifference(kinds - {kind}, names[1..]);
    }
  }

  lemma RemoveCell(objects: seq<Object>, path: string, names: seq<string>, at: string)
    requires WellFormed(objects)
    ensures WellFormed(RemoveInterfaces(objects, path, names))
    ensures Lookup(RemoveInterfaces(objects, path, names), at)
            == if at == path then StepObject(Lookup(objects, at), at, Vanish(KindsOf(names)))
               else Lookup(objects, at)
  {
    var i := Find(objects, path);
    if i < |objects| {
      var left := DropKinds(objects[i].interfaces, names);
      DropIsDifference(objects[i].interfaces, names);
      if left == {} {
        LookupRemoved(objects, i, at);
      } else {
        LookupReplaced(objects, i, objects[i].(interfaces := left), at);
      }
    }
  }

  lemma ChangeCell(objects: seq<Object>, path: string, kind: Kind, changed: seq<Property>,
                   invalidated: seq<string>, at: string)
    requires WellFormed(objects)
    ensures WellFormed(ChangeProperties(objects, path, kind, changed, invalidated))
    ensures Lookup(ChangeProperties(objects, path, kind, changed, invalidated), at)
            == if at == path then StepObject(Lookup(objects, at), at, Touch(kind, changed, invalidated))
               else Lookup(objects, at)
  {
    var i := Find(objects, path);
    if Changes(objects, path, kind) {
      LookupReplaced(objects, i, ChangeProperties(objects, path, kind, changed, invalidated)[i], at);
    }
  }

  /** At every path, a signal does to the copy what its event says. */
  lemma ApplyCell(objects: seq<Object>, signal: Message, at: string)
    requires WellFormed(objects) && IsSignal(signal)
    requires signal.InterfacesAdded? ==> AtMostOneKept(signal.interfaces)
    ensures WellFormed(Apply(objects, signal))
    ensures Lookup(Apply(objects, signal), at) == StepObject(Lookup(objects, at), at, EventAt(signal, at))
  {
    hide AddEach;
    hide RemoveInterfaces;
    hide ChangeProperties;
    hide FirstKept;
    hide KindsOf;
    hide SetProperties;
    hide UnsetProperties;
    match signal
    case InterfacesAdded(path, interfaces) =>
      if |path| < HANDLE_MAX {
        AddCell(objects, path, interfaces, at);
      }
    case InterfacesRemoved(path, names) =>
      RemoveCell(objects, path, names, at);
    case PropertiesChanged(path, name, changed, invalidated) =>
      match KindOf(name)
      case None =>
      case Some(kind) =>
        if kind != Characteristic {
          ChangeCell(objects, path, kind, changed, invalidated, at);
        }
  }

  // ---- the tree takes the same step ------------------------------------------------------

  lemma {:induction false} GainAt(node: Node, interfaces: seq<Interface>)
    requires forall i, j :: 0 <= i < j < |interfaces| ==> interfaces[i].name != interfaces[j].name
    ensures forall i :: 0 <= i < |interfaces| ==>
      && interfaces[i].name in Gain(node, interfaces)
      && Gain(node, interfaces)[interfaces[i].name] == Assign(map[], interfaces[i].properties)
    ensures forall name | (forall i :: 0 <= i < |interfaces| ==> interfaces[i].name != name) ::
      && (name in Gain(node, interfaces) <==> name in node)
      && (name in node ==> Gain(node, interfaces)[name] == node[name])
    decreases |interfaces|
  {
    if interfaces != [] {
      var rest := interfaces[1..];
      assert forall i :: 0 <= i < |rest| ==> rest[i] == interfaces[i + 1];
      var grown := node[interfaces[0].name := Assign(map[], interfaces[0].properties)];
      GainAt(grown, rest);
      assert forall i :: 0 < i < |interfaces| ==> interfaces[i] == rest[i - 1];
    }
  }

  lemma KeptOf(node: Node, kind: Kind)
    requires OneKept(node) && NameOf(kind) in node
    ensures KeptIn(node) == Some(Entry(kind, Project(kind, node[NameOf(kind)])))
  {
    assert forall k :: NameOf(k) in node ==> k == kind;
  }

  lemma {:induction false} FirstKeptIs(interfaces: seq<Interface>)
    ensures FirstKept(interfaces) == Quiet ==>
      forall i :: 0 <= i < |interfaces| ==> KindOf(interfaces[i].name).None?
    ensures FirstKept(interfaces) != Quiet ==>
      exists i :: 0 <= i < |interfaces| && KindOf(interfaces[i].name).Some?
        && FirstKept(interfaces) == Appear(KindOf(interfaces[i].name).value, interfaces[i].properties)
    decreases |interfaces|
  {
    if interfaces != [] {
      var rest := interfaces[1..];
      FirstKeptIs(rest);
      if KindOf(interfaces[0].name).None? {
        assert forall i :: 0 < i < |interfaces| ==> interfaces[i] == rest[i - 1];
        if FirstKept(rest) != Quiet {
          var i :| 0 <= i < |rest| && KindOf(rest[i].name).Some?
                   && FirstKept(rest) == Appear(KindOf(rest[i].name).value, rest[i].properties);
          assert interfaces[i + 1] == rest[i];
        }
      }
    }
  }

  lemma NameIs(name: string, kind: Kind)
    ensures KindOf(name) == Some(kind) <==> name == NameOf(kind)
  {
  }

  lemma GainOne(node: Node, interfaces: seq<Interface>)
    requires Sound(interfaces) && OneKept(Gain(node, interfaces))
    ensures AtMostOneKept(interfaces)
  {
    GainAt(node, interfaces);
    forall i, j | 0 <= i < |interfaces| && 0 <= j < |interfaces|
      ensures KindOf(interfaces[i].name).Some? && KindOf(interfaces[j].name).Some? ==> i == j
    {
      if KindOf(interfaces[i].name).Some? && KindOf(interfaces[j].name).Some? {
        NameIs(interfaces[i].name, KindOf(interfaces[i].name).value);
        NameIs(interfaces[j].name, KindOf(interfaces[j].name).value);
      }
    }
  }

  lemma GainUnkept(node: Node, interfaces: seq<Interface>)
    requires Sound(interfaces)
    requires forall i :: 0 <= i < |interfaces| ==> KindOf(interfaces[i].name).None?
    ensures KeptIn(Gain(node, interfaces)) == KeptIn(node)
  {
    GainAt(node, interfaces);
    assert forall k :: KindOf(NameOf(k)) == Some(k);
  }

  lemma GainOnly(node: Node, interfaces: seq<Interface>, i: nat, kind: Kind)
    requires Sound(interfaces) && OneKept(Gain(node, interfaces))
    requires forall j :: 0 <= j < |interfaces| ==> interfaces[j].name !in node
    requires i < |interfaces| && interfaces[i].name == NameOf(kind)
    ensures KeptIn(node) == None
    ensures KeptIn(Gain(node, interfaces))
            == Some(Entry(kind, SetProperties(NO_FIELDS, kind, interfaces[i].properties)))
  {
    var gained := Gain(node, interfaces);
    GainAt(node, interfaces);
    KeptOf(gained, kind);
    assert KindOf(interfaces[i].name) == Some(kind);
    ProjectAssign(kind, map[], interfaces[i].properties);
    forall k: Kind ensures NameOf(k) !in node {
      assert NameOf(k) in node ==> NameOf(k) in gained;
    }
  }

  /** A listed or announced set of interfaces is worth, in the projection, its one kept interface. */
  lemma GainKept(node: Node, interfaces: seq<Interface>)
    requires Sound(interfaces) && OneKept(Gain(node, interfaces))
    requires forall i :: 0 <= i < |interfaces| ==> interfaces[i].name !in node
    ensures AtMostOneKept(interfaces)
    ensures Possible(KeptIn(node), FirstKept(interfaces))
    ensures KeptIn(Gain(node, interfaces)) == StepEntry(KeptIn(node), FirstKept(interfaces))
  {
    GainOne(node, interfaces);
    FirstKeptIs(interfaces);
    if FirstKept(interfaces) == Quiet {
      GainUnkept(node, interfaces);
    } else {
      var i :| 0 <= i < |interfaces| && KindOf(interfaces[i].name).Some?
               && FirstKept(interfaces) == Appear(KindOf(interfaces[i].name).value, interfaces[i].properties);
      NameIs(interfaces[i].name, KindOf(interfaces[i].name).value);
      GainOnly(node, interfaces, i, KindOf(interfaces[i].name).value);
    }
  }

  lemma {:induction false} KindsOfIs(names: seq<string>, kind: Kind)
    ensures kind in KindsOf(names) <==> NameOf(kind) in names
    decreases |names|
  {
    if names != [] {
      KindsOfIs(names[1..], kind);
      NameIs(names[0], kind);
      assert names == [names[0]] + names[1..];
    }
  }

  lemma LoseKept(node: Node, names: seq<string>)
    requires OneKept(node)
    requires forall i :: 0 <= i < |names| ==> names[i] in node
    ensures OneKept(Lose(node, names))
    ensures Possible(KeptIn(node), Vanish(KindsOf(names)))
    ensures KeptIn(Lose(node, names)) == StepEntry(KeptIn(node), Vanish(KindsOf(names)))
  {
    hide Project;
    hide NameOf;
    hide KindsOf;
    hide Lose;
    hide KeptIn;
    forall k: Kind
      ensures k in KindsOf(names) <==> NameOf(k) in names
      ensures NameOf(k) in Lose(node, names) <==> NameOf(k) in node && NameOf(k) !in names
      ensures NameOf(k) in Lose(node, names) ==> Lose(node, names)[NameOf(k)] == node[NameOf(k)]
    {
      KindsOfIs(names, k);
      LoseAt(node, names, NameOf(k));
    }
    forall k | k in KindsOf(names) ensures KeptIn(node).Some? && KeptIn(node).value.kind == k {
      KeptOf(node, k);
    }
    KeptAny(node);
    KeptAny(Lose(node, names));
  }

  lemma LoseAt(node: Node, names: seq<string>, name: string)
    ensures name in Lose(node, names) <==> name in node && name !in names
    ensures name in Lose(node, names) ==> Lose(node, names)[name] == node[name]
  {
  }

  /** What is kept of a node is kept of an interface it has; a node with none has nothing kept. */
  lemma KeptAny(node: Node)
    ensures KeptIn(node).None? ==> forall k :: NameOf(k) !in node
    ensures KeptIn(node).Some? ==>
      var e := KeptIn(node).value; NameOf(e.kind) in node && e == Entry(e.kind, Project(e.kind, node[NameOf(e.kind)]))
  {
    hide Project;
  }

  lemma ChangeKept(node: Node, name: string, changed: seq<Property>, invalidated: seq<string>, tree: Tree, path: string)
    requires node == Interfaces(tree, path) && OneKept(node)
    requires Announces(tree, PropertiesChanged(path, name, changed, invalidated))
    ensures var after := node[name := Forget(Assign(node[name], changed), invalidated)];
            && OneKept(after)
            && (|path| < HANDLE_MAX ==>
                  var event := EventAt(PropertiesChanged(path, name, changed, invalidated), path);
                  && Possible(KeptIn(node), event)
                  && KeptIn(after) == StepEntry(KeptIn(node), event))
  {
    var after := node[name := Forget(Assign(node[name], changed), invalidated)];
    assert forall k :: NameOf(k) in after <==> NameOf(k) in node;
    match KindOf(name)
    case None =>
      assert forall k :: KindOf(NameOf(k)) == Some(k);
      assert forall k :: NameOf(k) != name;
    case Some(kind) =>
      NameIs(name, kind);
      KeptOf(node, kind);
      KeptOf(after, kind);
      ProjectAssign(kind, node[name], changed);
      ProjectForget(kind, Assign(node[name], changed), invalidated);
      if kind == Characteristic {
        KeepsUuid(Project(kind, node[name]), changed, invalidated);
      }
  }

  lemma {:induction false} KeepsUuid(fields: Fields, changed: seq<Property>, invalidated: seq<string>)
    requires forall i :: 0 <= i < |changed| ==> changed[i].name != "UUID"
    ensures UnsetProperties(SetProperties(fields, Characteristic, changed), Characteristic, invalidated) == fields
    decreases |changed| + |invalidated|
  {
    if changed != [] {
      KeepsUuid(fields, changed[1..], invalidated);
    } else if invalidated != [] {
      KeepsUuid(fields, [], invalidated[1..]);
    }
  }

  /** At every path, an announced change does to the projection what its event says. */
  lemma AfterCell(tree: Tree, signal: Message, at: string)
    requires WellFormedTree(tree) && IsSignal(signal) && Announces(tree, signal)
    ensures WellFormedTree(After(tree, signal))
    ensures signal.InterfacesAdded? ==> AtMostOneKept(signal.interfaces)
    ensures Possible(Kept(tree, at), EventAt(signal, at))
    ensures Kept(After(tree, signal), at) == StepEntry(Kept(tree, at), EventAt(signal, at))
  {
    hide Gain;
    hide Lose;
    hide KeptIn;
    hide FirstKept;
    hide KindsOf;
    hide Assign;
    hide Forget;
    hide SetProperties;
    hide UnsetProperties;
    var node := Interfaces(tree, signal.path);
    match signal
    case InterfacesAdded(_, interfaces) =>
      GainKept(node, interfaces);
    case InterfacesRemoved(_, names) =>
      LoseKept(node, names);
    case PropertiesChanged(path, name, changed, invalidated) =>
      ChangeKept(node, name, changed, invalidated, tree, path);
  }
}
