/** The nodes of the USB tree as linked objects, and the loop that builds them,
    after devil/utils/find_usb_devices.py. */
module UsbNodes {
  import opened Wrappers
  import opened UsbTrees

  /** A bus, which answers -1 for its device number, or a device. */
  class USBNode {
    const busNum: nat
    const deviceNum: int
    var portToNode: map<nat, USBNode>
    var serial: Option<string>

    constructor (busNum: nat, deviceNum: int)
      ensures this.busNum == busNum && this.deviceNum == deviceNum
      ensures portToNode == map[] && serial == None
    {
      this.busNum, this.deviceNum := busNum, deviceNum;
      portToNode, serial := map[], None;
    }

    method AddChild(port: nat, device: USBNode) returns (outcome: Outcome<Error>)
      modifies this`portToNode
      ensures outcome == if port in old(portToNode) then Fail(DuplicatePort) else Pass
      ensures portToNode == if outcome.Pass? then old(portToNode)[port := device] else old(portToNode)
    {
      if port in portToNode {
        return Fail(DuplicatePort);
      }
      portToNode := portToNode[port := device];
      return Pass;
    }

    /** This node and everything below it, each once; the order of the children
        of a node is open. */
    method AllNodes(ghost f: Forest, ghost nodes: seq<USBNode>, ghost k: nat)
      returns (all: seq<USBNode>, ghost ids: seq<nat>)
      requires IsForest(f) && Mirrors(f, nodes) && k < |nodes| && nodes[k] == this
      ensures |all| == |ids| > 0 && all[0] == this
      ensures forall i :: 0 <= i < |ids| ==> ids[i] < |nodes| && all[i] == nodes[ids[i]]
      ensures forall i, j :: 0 <= i < j < |ids| ==> ids[i] != ids[j]
      ensures forall j :: 0 <= j < |nodes| ==> (j in ids <==> Under(f, k, j))
      decreases |nodes| - k
    {
      all, ids := [this], [k];
      var ports := portToNode.Keys;
      assert Alike(f, nodes, k, nodes[k]);
      forall j | 0 <= j < |nodes|
        ensures Reached(f, k, ports, j) <==> j == k
      {
        NoneReached(f, k, j);
      }
      while ports != {}
        invariant ports <= f.kids[k].Keys
        invariant |all| == |ids| > 0 && all[0] == this
        invariant forall i :: 0 <= i < |ids| ==> ids[i] < |nodes| && all[i] == nodes[ids[i]]
        invariant forall i, j :: 0 <= i < j < |ids| ==> ids[i] != ids[j]
        invariant forall j :: 0 <= j < |nodes| ==> (j in ids <==> Reached(f, k, ports, j))
        decreases ports
      {
        var port :| port in ports;
        ghost var c := f.kids[k][port];
        assert Holds(f, k, port);
        var more, moreIds := portToNode[port].AllNodes(f, nodes, c);
        forall j | 0 <= j < |nodes|
          ensures Reached(f, k, ports - {port}, j) <==> Reached(f, k, ports, j) || Under(f, c, j)
          ensures !(Reached(f, k, ports, j) && Under(f, c, j))
        {
          MoreReached(f, k, ports, port, j);
        }
        assert forall i, j :: 0 <= i < |ids| && 0 <= j < |moreIds| ==> ids[i] != moreIds[j] by {
          assert forall i :: 0 <= i < |ids| ==> ids[i] in ids;
          assert forall j :: 0 <= j < |moreIds| ==> moreIds[j] in moreIds;
        }
        all, ids, ports := all + more, ids + moreIds, ports - {port};
      }
    }

    /** The first node that AllNodes meets with the number, if any. */
    method FindDeviceNumber(findnum: int, ghost f: Forest, ghost nodes: seq<USBNode>, ghost k: nat)
      returns (found: Option<USBNode>, ghost id: nat)
      requires IsForest(f) && Mirrors(f, nodes) && k < |nodes| && nodes[k] == this
      ensures found.Some? ==>
                && id < |nodes| && found.value == nodes[id] && Under(f, k, id)
                && f.places[id].Number() == findnum
      ensures found.None? ==> forall j :: 0 <= j < |nodes| && Under(f, k, j) ==> f.places[j].Number() != findnum
    {
      var all, ids := AllNodes(f, nodes, k);
      for i := 0 to |all|
        invariant forall j :: 0 <= j < i ==> f.places[ids[j]].Number() != findnum
      {
        assert Alike(f, nodes, ids[i], all[i]);
        if all[i].deviceNum == findnum {
          return Some(all[i]), ids[i];
        }
      }
      return None, 0;
    }
  }

  /** Node `k`, or below one of its ports outside `left`. */
  ghost predicate Reached(f: Forest, k: nat, left: set<nat>, j: nat)
    requires IsForest(f) && j < |f.places|
  {
    j == k || (Under(f, k, j) && f.places[Toward(f, k, j)].port !in left)
  }

  lemma NoneReached(f: Forest, k: nat, j: nat)
    requires IsForest(f) && k < |f.places| && j < |f.places|
    ensures Reached(f, k, f.kids[k].Keys, j) <==> j == k
  {
    if j != k && Under(f, k, j) {
      assert Hangs(f, Toward(f, k, j));
    }
  }

  lemma MoreReached(f: Forest, k: nat, left: set<nat>, port: nat, j: nat)
    requires IsForest(f) && k < |f.places| && j < |f.places|
    requires port in left && port in f.kids[k]
    ensures f.kids[k][port] < |f.places|
    ensures Reached(f, k, left - {port}, j) <==> Reached(f, k, left, j) || Under(f, f.kids[k][port], j)
    ensures !(Reached(f, k, left, j) && Under(f, f.kids[k][port], j))
  {
    assert Holds(f, k, port);
    UnderChild(f, k, f.kids[k][port], j);
    if j != k && Under(f, k, j) {
      assert Hangs(f, Toward(f, k, j));
    }
  }

  /** The objects are the places of the forest. */
  ghost predicate Mirrors(f: Forest, nodes: seq<USBNode>)
    requires IsForest(f)
    reads nodes
  {
    && |nodes| == |f.places|
    && (forall j, k :: 0 <= j < |nodes| && 0 <= k < |nodes| ==> Differ(nodes, j, k))
    && (forall k {:trigger Alike(f, nodes, k, nodes[k])} :: 0 <= k < |nodes| ==> Alike(f, nodes, k, nodes[k]))
  }

  ghost predicate Differ(nodes: seq<USBNode>, j: nat, k: nat)
    requires j < |nodes| && k < |nodes|
  {
    j != k ==> nodes[j] != nodes[k]
  }

  ghost predicate Alike(f: Forest, nodes: seq<USBNode>, k: nat, node: USBNode)
    requires IsForest(f) && |nodes| == |f.places| && k < |nodes|
    reads node`portToNode
  {
    && node.busNum == f.places[k].bus
    && node.deviceNum == f.places[k].Number()
    && node.portToNode.Keys == f.kids[k].Keys
    && (forall p :: p in f.kids[k] ==> Holds(f, k, p) && node.portToNode[p] == nodes[f.kids[k][p]])
  }

  /** Where everything is: the forest, the place of each line, and the object of
      each place. */
  datatype Layout = Layout(forest: Forest, at: map<nat, nat>, nodes: seq<USBNode>)

  /** The tree has the root of each bus. */
  ghost predicate Roots(f: Forest, nodes: seq<USBNode>, tree: map<nat, USBNode>)
    requires IsForest(f) && |nodes| == |f.places|
  {
    tree.Keys == f.roots.Keys && forall b :: b in tree ==> tree[b] == nodes[f.roots[b]]
  }

  ghost predicate Serials(lines: seq<Line>, n: nat, f: Forest, nodes: seq<USBNode>)
    requires n <= |lines| && |nodes| == |f.places|
    reads nodes
  {
    forall k :: 0 <= k < |nodes| ==>
      nodes[k].serial == if f.places[k].Root? then None else SerialOf(lines, f.places[k].line, n)
  }

  /** The state after the lines before `n`. */
  ghost predicate Built(lines: seq<Line>, n: nat, y: Layout, tree: map<nat, USBNode>)
    requires n <= |lines|
    reads y.nodes
  {
    && IsForest(y.forest)
    && Listed(lines, n, y.forest, y.at)
    && Mirrors(y.forest, y.nodes)
    && Roots(y.forest, y.nodes, tree)
    && (UniqueDevices(lines) ==> Serials(lines, n, y.forest, y.nodes))
  }

  /** Creates the bus unless it is known. */
  method EnsureBus(lines: seq<Line>, ghost n: nat, bus: nat, tree0: map<nat, USBNode>, ghost y0: Layout)
    returns (tree: map<nat, USBNode>, ghost y: Layout)
    requires n <= |lines| && Built(lines, n, y0, tree0)
    ensures Built(lines, n, y, tree)
    ensures tree.Keys == tree0.Keys + {bus}
    ensures forall k :: 0 <= k < |y.nodes| ==> y.nodes[k] in y0.nodes || fresh(y.nodes[k])
  {
    tree, y := tree0, y0;
    if bus in tree {
      return;
    }
    var node := new USBNode(bus, -1);
    AddBus(lines, n, y0.forest, y0.at, bus);
    MirrorsBus(y0.forest, y0.nodes, node);
    tree := tree[bus := node];
    y := Layout(WithBus(y0.forest, bus), y0.at, y0.nodes + [node]);
  }

  lemma DifferMore(nodes: seq<USBNode>, node: USBNode)
    requires node !in nodes && forall j, k :: 0 <= j < |nodes| && 0 <= k < |nodes| ==> Differ(nodes, j, k)
    ensures forall j, k :: 0 <= j <= |nodes| && 0 <= k <= |nodes| ==> Differ(nodes + [node], j, k)
  {
    forall j, k | 0 <= j <= |nodes| && 0 <= k <= |nodes|
      ensures Differ(nodes + [node], j, k)
    {
      assert j < |nodes| && k < |nodes| ==> Differ(nodes, j, k);
    }
  }

  lemma MirrorsBus(f: Forest, nodes: seq<USBNode>, bus: USBNode)
    requires IsForest(f) && Mirrors(f, nodes) && IsForest(WithBus(f, bus.busNum))
    requires bus !in nodes && bus.deviceNum == -1 && bus.portToNode == map[]
    ensures Mirrors(WithBus(f, bus.busNum), nodes + [bus])
  {
    var g, all := WithBus(f, bus.busNum), nodes + [bus];
    DifferMore(nodes, bus);
    forall k | 0 <= k < |all|
      ensures Alike(g, all, k, all[k])
    {
      assert k < |nodes| ==> Alike(f, nodes, k, nodes[k]);
      assert forall p: nat :: p in g.kids[k] ==> Holds(g, k, p);
    }
  }

  /** The node that the T line `n` names: the bus, or the device found by number. */
  method FindParent(lines: seq<Line>, n: nat, tree: map<nat, USBNode>, ghost y: Layout)
    returns (parent: Option<USBNode>, ghost id: nat)
    requires n < |lines| && lines[n].T? && Built(lines, n, y, tree) && lines[n].bus in tree
    ensures parent.Some? ==>
              && id < |y.nodes| && parent.value == y.nodes[id]
              && y.forest.places[id].bus == lines[n].bus && IsNamed(lines[n].prnt, y.forest.places[id])
    ensures parent.None? ==> !ParentPrecedes(lines, n)
  {
    var bus, prnt := lines[n].bus, lines[n].prnt;
    ghost var f, root := y.forest, y.forest.roots[bus];
    if prnt == 0 {
      return Some(tree[bus]), root;
    }
    parent, id := tree[bus].FindDeviceNumber(prnt, f, y.nodes, root);
    if parent.Some? {
      UnderRoot(f, root, id);
    } else {
      forall k | 0 <= k < |y.nodes| && f.places[k].bus == bus
        ensures f.places[k].Number() != prnt
      {
        UnderRoot(f, root, k);
      }
      NoParent(lines, n, f, y.at);
    }
  }

  /** Hangs a new device on the port of its place, if that is free. */
  method Link(parent: USBNode, device: USBNode, port: nat, ghost f: Forest, ghost nodes: seq<USBNode>, ghost d: Place)
    returns (outcome: Outcome<Error>)
    requires IsForest(f) && Mirrors(f, nodes)
    requires d.Device? && d.parent < |nodes| && parent == nodes[d.parent] && port == d.port
    requires d.port !in f.kids[d.parent] ==> IsForest(WithDevice(f, d))
    requires device !in nodes && device.busNum == d.bus && device.deviceNum == d.dev && device.portToNode == map[]
    modifies parent`portToNode
    ensures outcome == if d.port in f.kids[d.parent] then Fail(DuplicatePort) else Pass
    ensures outcome.Pass? ==> Mirrors(WithDevice(f, d), nodes + [device])
  {
    assert Alike(f, nodes, d.parent, parent);
    outcome := parent.AddChild(port, device);
    if outcome.Pass? {
      DifferMore(nodes, device);
      forall k | 0 <= k < |nodes|
        ensures Alike(WithDevice(f, d), nodes + [device], k, nodes[k])
      {
        assert Differ(nodes, k, d.parent) && old(Alike(f, nodes, k, nodes[k]));
        AlikeGrows(f, nodes, d, device, k, old(nodes[k].portToNode), nodes[k]);
      }
    }
  }

  /** One node before and after the new device has been hung up. */
  lemma AlikeGrows(f: Forest, nodes: seq<USBNode>, d: Place, device: USBNode, k: nat,
                   ports: map<nat, USBNode>, node: USBNode)
    requires IsForest(f) && |nodes| == |f.places| && k < |nodes|
    requires d.Device? && d.parent < |nodes| && d.port !in f.kids[d.parent] && IsForest(WithDevice(f, d))
    requires node.busNum == f.places[k].bus && node.deviceNum == f.places[k].Number() && ports.Keys == f.kids[k].Keys
    requires forall p :: p in f.kids[k] ==> Holds(f, k, p) && ports[p] == nodes[f.kids[k][p]]
    requires node.portToNode == if k == d.parent then ports[d.port := device] else ports
    ensures Alike(WithDevice(f, d), nodes + [device], k, node)
  {
    assert forall p: nat :: p in WithDevice(f, d).kids[k] ==> Holds(WithDevice(f, d), k, p);
  }

  /** Puts the new device of the T line `n` on its port of the parent. */
  method Attach(lines: seq<Line>, n: nat, parent: USBNode, device: USBNode, tree: map<nat, USBNode>, ghost y0: Layout,
                ghost id: nat)
    returns (error: Option<Error>, ghost y: Layout)
    requires n < |lines| && lines[n].T? && Built(lines, n, y0, tree) && lines[n].bus in tree
    requires id < |y0.nodes| && parent == y0.nodes[id]
    requires y0.forest.places[id].bus == lines[n].bus && IsNamed(lines[n].prnt, y0.forest.places[id])
    requires device !in y0.nodes && device.busNum == lines[n].bus && device.deviceNum == lines[n].dev
    requires device.portToNode == map[] && device.serial == None
    modifies parent`portToNode
    ensures error.None? ==> Built(lines, n + 1, y, tree) && y.nodes == y0.nodes + [device]
    ensures UniqueDevices(lines) ==> error == LineError(lines, n)
  {
    var port := lines[n].port + 1;
    ghost var f, d := y0.forest, Device(lines[n].bus, lines[n].dev, n, id, port);
    FoundParent(lines, n, f, y0.at, id);
    if port !in f.kids[id] {
      AddDevice(lines, n, f, y0.at, id);
    }
    var outcome := Link(parent, device, port, f, y0.nodes, d);
    if outcome.Fail? {
      return Some(outcome.error), y0;
    }
    SerialsOn(lines, n, f, y0.at, y0.nodes, d, device);
    error, y := None, Layout(WithDevice(f, d), y0.at[n := |y0.nodes|], y0.nodes + [device]);
  }

  /** A T line leaves the serial numbers, and its device starts with none. */
  lemma SerialsOn(lines: seq<Line>, n: nat, f: Forest, at: map<nat, nat>, nodes: seq<USBNode>, d: Place, device: USBNode)
    requires n < |lines| && lines[n].T? && IsForest(f) && Listed(lines, n, f, at) && |nodes| == |f.places|
    requires d.Device? && d.line == n && d.parent < |f.places| && device.serial == None
    requires UniqueDevices(lines) ==> Serials(lines, n, f, nodes)
    ensures UniqueDevices(lines) ==> Serials(lines, n + 1, WithDevice(f, d), nodes + [device])
  {
    forall k | 0 <= k < |nodes| && f.places[k].Device? {
      SerialStep(lines, n, f, at, k);
    }
  }

  /** Finds the node that the T line `n` names and puts its new device there. */
  method PlaceUnderParent(lines: seq<Line>, n: nat, device: USBNode, tree: map<nat, USBNode>, ghost y0: Layout)
    returns (error: Option<Error>, ghost y: Layout)
    requires n < |lines| && lines[n].T? && Built(lines, n, y0, tree) && lines[n].bus in tree
    requires device !in y0.nodes && device.busNum == lines[n].bus && device.deviceNum == lines[n].dev
    requires device.portToNode == map[] && device.serial == None
    modifies y0.nodes
    ensures error.None? ==> Built(lines, n + 1, y, tree) && y.nodes == y0.nodes + [device]
    ensures UniqueDevices(lines) ==> error == LineError(lines, n)
  {
    var parent, id := FindParent(lines, n, tree, y0);
    if parent.None? {
      return Some(NoSuchParent), y0;
    }
    error, y := Attach(lines, n, parent.value, device, tree, y0, id);
  }

  /** A T line: a new device on a bus that may be new. */
  method PlaceDevice(lines: seq<Line>, n: nat, tree0: map<nat, USBNode>, ghost y0: Layout)
    returns (tree: map<nat, USBNode>, error: Option<Error>, ghost y: Layout)
    requires n < |lines| && lines[n].T? && Built(lines, n, y0, tree0)
    modifies y0.nodes
    ensures error.None? ==> Built(lines, n + 1, y, tree) && tree.Keys == tree0.Keys + {lines[n].bus}
    ensures error.None? ==> forall k :: 0 <= k < |y.nodes| ==> y.nodes[k] in y0.nodes || fresh(y.nodes[k])
    ensures UniqueDevices(lines) ==> error == LineError(lines, n)
  {
    tree, y := EnsureBus(lines, n, lines[n].bus, tree0, y0);
    var device := new USBNode(lines[n].bus, lines[n].dev);
    error, y := PlaceUnderParent(lines, n, device, tree, y);
  }

  /** The device of the last T line, found by its number. */
  method FindDevice(lines: seq<Line>, ghost n: nat, busNum: nat, deviceNum: int, tree: map<nat, USBNode>, ghost y: Layout)
    returns (device: USBNode, ghost id: nat)
    requires n < |lines| && Built(lines, n, y, tree) && Remembered(lines, n, Some(busNum), deviceNum)
    ensures device.busNum == busNum && device.deviceNum == deviceNum
    ensures id < |y.nodes| && device == y.nodes[id] && LastDevice(lines, n).value in y.at
    ensures UniqueDevices(lines) ==> id == y.at[LastDevice(lines, n).value]
  {
    ghost var f, t := y.forest, LastDevice(lines, n).value;
    assert Follows(lines, n, f, y.at, y.at[t]) && Hangs(f, y.at[t]);
    ghost var root := f.roots[busNum];
    UnderRoot(f, root, y.at[t]);
    var found;
    found, id := tree[busNum].FindDeviceNumber(deviceNum, f, y.nodes, root);
    device := found.value;
    UnderRoot(f, root, id);
    assert Alike(f, y.nodes, id, device);
    if UniqueDevices(lines) {
      SameNode(lines, n, f, y.at, id, y.at[t]);
    }
  }

  /** An S line: the serial number goes to a device of the bus and the number of
      the last T line, and to the device of that line if device numbers are unique. */
  method PlaceSerial(lines: seq<Line>, n: nat, busNum: nat, deviceNum: int, tree: map<nat, USBNode>, ghost y: Layout)
    returns (device: USBNode)
    requires n < |lines| && lines[n].S? && Built(lines, n, y, tree)
    requires Remembered(lines, n, Some(busNum), deviceNum)
    modifies y.nodes
    ensures Built(lines, n + 1, y, tree)
    ensures device in y.nodes && device.busNum == busNum && device.deviceNum == deviceNum
    ensures device.serial == Some(lines[n].serial)
    ensures forall k :: 0 <= k < |y.nodes| && y.nodes[k] != device ==> y.nodes[k].serial == old(y.nodes[k].serial)
  {
    ghost var id;
    device, id := FindDevice(lines, n, busNum, deviceNum, tree, y);
    ListedOn(lines, n, y.forest, y.at);
    SetSerial(lines, n, device, y.forest, y.at, y.nodes, id);
  }

  method SetSerial(lines: seq<Line>, n: nat, node: USBNode, ghost f: Forest, ghost at: map<nat, nat>,
                   ghost nodes: seq<USBNode>, ghost id: nat)
    requires n < |lines| && lines[n].S? && LastDevice(lines, n).Some?
    requires IsForest(f) && Listed(lines, n, f, at) && Mirrors(f, nodes)
    requires id < |nodes| && node == nodes[id]
    requires LastDevice(lines, n).value in at
    requires UniqueDevices(lines) ==> id == at[LastDevice(lines, n).value] && Serials(lines, n, f, nodes)
    modifies node`serial
    ensures Mirrors(f, nodes) && node.serial == Some(lines[n].serial)
    ensures UniqueDevices(lines) ==> Serials(lines, n + 1, f, nodes)
  {
    forall k | 0 <= k < |nodes| && f.places[k].Device? {
      SerialStep(lines, n, f, at, k);
    }
    node.serial := Some(lines[n].serial);
    forall k | 0 <= k < |nodes| && k != id
      ensures nodes[k].serial == old(nodes[k].serial)
    {
      assert Differ(nodes, k, id);
    }
    assert Mirrors(f, nodes) by {
      forall k | 0 <= k < |nodes|
        ensures Alike(f, nodes, k, nodes[k])
      {
        assert old(Alike(f, nodes, k, nodes[k]));
      }
    }
  }

  /** A line that matches neither pattern changes nothing. */
  lemma SkipLine(lines: seq<Line>, n: nat, tree: map<nat, USBNode>, y: Layout)
    requires n < |lines| && lines[n].Other? && Built(lines, n, y, tree)
    ensures Built(lines, n + 1, y, tree)
  {
    ListedOn(lines, n, y.forest, y.at);
    forall k | 0 <= k < |y.nodes| && y.forest.places[k].Device? {
      SerialStep(lines, n, y.forest, y.at, k);
    }
  }

  /** The buses of the devices before line `n`. */
  function Buses(lines: seq<Line>, n: nat): set<nat>
    requires n <= |lines|
  {
    if n == 0 then {}
    else if lines[n - 1].T? then Buses(lines, n - 1) + {lines[n - 1].bus}
    else Buses(lines, n - 1)
  }

  /** The bus and the number of the last T line, if any. */
  ghost predicate Remembered(lines: seq<Line>, n: nat, busNum: Option<nat>, deviceNum: int)
    requires n <= |lines|
  {
    match LastDevice(lines, n)
    case None => busNum.None?
    case Some(t) => busNum == Some(lines[t].bus) && deviceNum == lines[t].dev
  }

  /** One pass of the loop. */
  method TakeLine(lines: seq<Line>, n: nat, busNum0: Option<nat>, deviceNum0: int, tree0: map<nat, USBNode>,
                  ghost y0: Layout)
    returns (busNum: Option<nat>, deviceNum: int, tree: map<nat, USBNode>, error: Option<Error>, ghost y: Layout)
    requires n < |lines| && Built(lines, n, y0, tree0) && Remembered(lines, n, busNum0, deviceNum0)
    modifies y0.nodes
    ensures error.None? ==> Built(lines, n + 1, y, tree) && Remembered(lines, n + 1, busNum, deviceNum)
    ensures error.None? ==> tree.Keys == tree0.Keys + if lines[n].T? then {lines[n].bus} else {}
    ensures error.None? ==> forall k :: 0 <= k < |y.nodes| ==> y.nodes[k] in y0.nodes || fresh(y.nodes[k])
    ensures UniqueDevices(lines) ==> error == LineError(lines, n)
  {
    busNum, deviceNum, tree, error, y := busNum0, deviceNum0, tree0, None, y0;
    match lines[n]
    case T(bus, _, _, dev) =>
      busNum, deviceNum := Some(bus), dev;
      tree, error, y := PlaceDevice(lines, n, tree, y);
    case S(_) =>
      if busNum.None? {
        error := Some(SerialBeforeDevice);
        return;
      }
      var _ := PlaceSerial(lines, n, busNum.value, deviceNum, tree, y);
    case Other =>
      SkipLine(lines, n, tree, y);
  }

  lemma NothingBuilt(lines: seq<Line>)
    ensures Built(lines, 0, Layout(Forest([], [], map[]), map[], []), map[])
  {
    assert IsForest(Forest([], [], map[]));
  }

  /** The listing, if every line of it can be placed, gives each device exactly
      one node, where its line says; otherwise the first line that cannot be
      placed is the error. */
  method GetBusNumberToDeviceTreeMap(lines: seq<Line>)
    returns (tree: map<nat, USBNode>, error: Option<Error>, ghost y: Layout)
    ensures error.None? ==> Built(lines, |lines|, y, tree)
    ensures error.None? ==> tree.Keys == Buses(lines, |lines|)
    ensures UniqueDevices(lines) ==> error == FirstError(lines, |lines|)
  {
    tree, error, y := map[], None, Layout(Forest([], [], map[]), map[], []);
    NothingBuilt(lines);
    var busNum, deviceNum := None, 0;
    for n := 0 to |lines|
      invariant forall k :: 0 <= k < |y.nodes| ==> fresh(y.nodes[k])
      invariant error.None? && Built(lines, n, y, tree) && Remembered(lines, n, busNum, deviceNum)
      invariant tree.Keys == Buses(lines, n)
      invariant UniqueDevices(lines) ==> FirstError(lines, n).None?
    {
      busNum, deviceNum, tree, error, y := TakeLine(lines, n, busNum, deviceNum, tree, y);
      if error.Some? {
        if UniqueDevices(lines) {
          ErrorStays(lines, n + 1, |lines|);
        }
        return;
      }
    }
  }

  /** A listed device is below its bus, on the port that its line gives counted
      from 1, under a node of that bus with the number that its line gives, and
      nowhere else. */
  lemma EachDeviceOnce(lines: seq<Line>, y: Layout, tree: map<nat, USBNode>, i: nat)
    requires Built(lines, |lines|, y, tree) && i < |lines| && lines[i].T?
    ensures i in y.at && y.at[i] < |y.nodes| && lines[i].bus in y.forest.roots
    ensures Under(y.forest, y.forest.roots[lines[i].bus], y.at[i])
    ensures y.nodes[y.at[i]].busNum == lines[i].bus && y.nodes[y.at[i]].deviceNum == lines[i].dev
    ensures exists k :: 0 <= k < |y.nodes| && y.nodes[k].busNum == lines[i].bus
                        && y.nodes[k].deviceNum == (if lines[i].prnt == 0 then -1 else lines[i].prnt)
                        && IsOnly(y.nodes, k, lines[i].port + 1, y.nodes[y.at[i]])
  {
    assert Follows(lines, |lines|, y.forest, y.at, y.at[i]) && Hangs(y.forest, y.at[i]);
    UnderRoot(y.forest, y.forest.roots[lines[i].bus], y.at[i]);
    OnlyThere(y.forest, y.nodes, y.at[i]);
  }

  lemma OnlyThere(f: Forest, nodes: seq<USBNode>, c: nat)
    requires IsForest(f) && Mirrors(f, nodes) && c < |nodes| && f.places[c].Device?
    ensures IsOnly(nodes, f.places[c].parent, f.places[c].port, nodes[c])
    ensures nodes[c].busNum == f.places[c].bus == nodes[f.places[c].parent].busNum
    ensures nodes[c].deviceNum == f.places[c].dev
    ensures nodes[f.places[c].parent].deviceNum == f.places[f.places[c].parent].Number()
  {
    var k, port := f.places[c].parent, f.places[c].port;
    assert Alike(f, nodes, c, nodes[c]);
    assert Hangs(f, c) && Holds(f, k, port) && Alike(f, nodes, k, nodes[k]);
    forall j, p | 0 <= j < |nodes| && p in nodes[j].portToNode && nodes[j].portToNode[p] == nodes[c]
      ensures j == k && p == port
    {
      assert Alike(f, nodes, j, nodes[j]) && Holds(f, j, p) && Differ(nodes, c, f.kids[j][p]);
    }
  }

  /** Of all ports of all nodes, `device` is on port `port` of node `k` only. */
  ghost predicate IsOnly(nodes: seq<USBNode>, k: nat, port: nat, device: USBNode)
    requires k < |nodes|
    reads nodes
  {
    forall j, p :: 0 <= j < |nodes| ==>
      (p in nodes[j].portToNode && nodes[j].portToNode[p] == device <==> j == k && p == port)
  }
}
