/** The USB topology, after devil/utils/find_usb_devices.py: one tree per bus,
    built from the T and S lines that `usb-devices` prints. */
module UsbTrees {
  import opened Wrappers

  /** A line of the listing: a device, with its port counted from 0; the serial
      number of the device before it; or one that matches neither pattern. */
  datatype Line =
    | T(bus: nat, prnt: nat, port: nat, dev: int)
    | S(serial: string)
    | Other

  datatype Error = NoSuchParent | DuplicatePort | SerialBeforeDevice

  // ----------------------------------------------- which listings can be built

  /** Device numbers are unique per bus, and none is the -1 that buses answer. */
  ghost predicate UniqueDevices(lines: seq<Line>) {
    && (forall i :: 0 <= i < |lines| && lines[i].T? ==> lines[i].dev != -1)
    && (forall i, j :: 0 <= i < j < |lines| && lines[i].T? && lines[j].T? && lines[i].bus == lines[j].bus
          ==> lines[i].dev != lines[j].dev)
  }

  /** The parent that line `i` names is listed before it. */
  ghost predicate ParentPrecedes(lines: seq<Line>, i: nat)
    requires i < |lines| && lines[i].T?
  {
    lines[i].prnt == 0
    || exists j :: 0 <= j < i && lines[j].T? && lines[j].bus == lines[i].bus && lines[j].dev == lines[i].prnt
  }

  /** No sibling listed before line `i` is on the same port. */
  ghost predicate PortFree(lines: seq<Line>, i: nat)
    requires i < |lines| && lines[i].T?
  {
    forall j :: 0 <= j < i && lines[j].T? && lines[j].bus == lines[i].bus && lines[j].prnt == lines[i].prnt
      ==> lines[j].port != lines[i].port
  }

  ghost function LineError(lines: seq<Line>, i: nat): Option<Error>
    requires i < |lines|
  {
    match lines[i]
    case T(_, _, _, _) =>
      if !ParentPrecedes(lines, i) then Some(NoSuchParent)
      else if !PortFree(lines, i) then Some(DuplicatePort)
      else None
    case S(_) => if LastDevice(lines, i).None? then Some(SerialBeforeDevice) else None
    case Other => None
  }

  /** The error of the first line, of those before `n`, that cannot be placed. */
  ghost function FirstError(lines: seq<Line>, n: nat): Option<Error>
    requires n <= |lines|
  {
    if n == 0 then None
    else if FirstError(lines, n - 1).Some? then FirstError(lines, n - 1)
    else LineError(lines, n - 1)
  }

  lemma {:induction false} ErrorStays(lines: seq<Line>, m: nat, n: nat)
    requires m <= n <= |lines| && FirstError(lines, m).Some?
    ensures FirstError(lines, n) == FirstError(lines, m)
    decreases n
  {
    if m == n {
    } else {
      ErrorStays(lines, m, n - 1);
    }
  }

  /** A device line whose parent is listed before it and whose port is free, a
      serial number after some device line, or a line that matches nothing. */
  ghost predicate CanPlace(lines: seq<Line>, i: nat)
    requires i < |lines|
  {
    && (lines[i].T? ==> ParentPrecedes(lines, i) && PortFree(lines, i))
    && (lines[i].S? ==> exists j :: 0 <= j < i && lines[j].T?)
  }

  lemma LineErrorExactly(lines: seq<Line>, i: nat)
    requires i < |lines|
    ensures LineError(lines, i) ==
      if CanPlace(lines, i) then None
      else Some(if lines[i].S? then SerialBeforeDevice
                else if ParentPrecedes(lines, i) then DuplicatePort else NoSuchParent)
  {
  }

  /** There is an error exactly if some line cannot be placed, and it is that of the
      first such line. */
  lemma {:induction false} FirstErrorExactly(lines: seq<Line>, n: nat)
    requires n <= |lines|
    ensures FirstError(lines, n).None? <==> forall i :: 0 <= i < n ==> CanPlace(lines, i)
    ensures forall i :: 0 <= i < n && !CanPlace(lines, i) && (forall k :: 0 <= k < i ==> CanPlace(lines, k)) ==>
      FirstError(lines, n) == Some(if lines[i].S? then SerialBeforeDevice
                                   else if ParentPrecedes(lines, i) then DuplicatePort else NoSuchParent)
    decreases n
  {
    if n == 0 {
    } else {
      FirstErrorExactly(lines, n - 1);
      LineErrorExactly(lines, n - 1);
    }
  }

  /** The T line that the lines before `n` end with. */
  function LastDevice(lines: seq<Line>, n: nat): (line: Option<nat>)
    requires n <= |lines|
    ensures line.None? ==> forall i :: 0 <= i < n ==> !lines[i].T?
    ensures line.Some? ==> line.value < n && lines[line.value].T?
    ensures line.Some? ==> forall i :: line.value < i < n ==> !lines[i].T?
  {
    if n == 0 then None
    else if lines[n - 1].T? then Some(n - 1)
    else LastDevice(lines, n - 1)
  }

  /** The serial number that the lines before `n` give the device of line `i`:
      the last S line between it and the next T line. */
  function SerialOf(lines: seq<Line>, i: nat, n: nat): Option<string>
    requires n <= |lines|
  {
    if n <= i then None
    else if lines[n - 1].S? && LastDevice(lines, n) == Some(i) then Some(lines[n - 1].serial)
    else SerialOf(lines, i, n - 1)
  }

  // ---------------------------------------------------- the forest, as a value

  /** Where a node is: a root, or the device of a line under an earlier node. */
  datatype Place =
    | Root(bus: nat)
    | Device(bus: nat, dev: int, line: nat, parent: nat, port: nat)
  {
    function Number(): int {
      if Root? then -1 else dev
    }
  }

  /** The places in order of creation, the child on each port of each, and the
      root of each bus. */
  datatype Forest = Forest(places: seq<Place>, kids: seq<map<nat, nat>>, roots: map<nat, nat>)

  ghost predicate IsForest(f: Forest) {
    && |f.places| == |f.kids|
    && (forall k :: 0 <= k < |f.places| && f.places[k].Device? ==> f.places[k].parent < k)
    && (forall k :: 0 <= k < |f.places| ==> Hangs(f, k))
    && (forall k, p :: 0 <= k < |f.places| ==> Holds(f, k, p))
    && (forall b :: b in f.roots ==> f.roots[b] < |f.places| && f.places[f.roots[b]] == Root(b))
  }

  /** A root is that of its bus; a device is on its port of its parent, which is
      on the same bus. */
  ghost predicate Hangs(f: Forest, k: nat)
    requires |f.places| == |f.kids| && k < |f.places|
  {
    var d := f.places[k];
    && d.bus in f.roots
    && (d.Root? ==> f.roots[d.bus] == k)
    && (d.Device? ==>
          && d.parent < k
          && f.places[d.parent].bus == d.bus
          && d.port in f.kids[d.parent]
          && f.kids[d.parent][d.port] == k)
  }

  /** What is on port `p` of node `k` was put there. */
  ghost predicate Holds(f: Forest, k: nat, p: nat)
    requires |f.places| == |f.kids| && k < |f.places|
  {
    p in f.kids[k] ==>
      && k < f.kids[k][p] < |f.places|
      && f.places[f.kids[k][p]].Device?
      && f.places[f.kids[k][p]].parent == k
      && f.places[f.kids[k][p]].port == p
  }

  function WithBus(f: Forest, bus: nat): Forest {
    Forest(f.places + [Root(bus)], f.kids + [map[]], f.roots[bus := |f.places|])
  }

  function WithDevice(f: Forest, d: Place): Forest
    requires d.Device? && d.parent < |f.kids|
  {
    var siblings: map<nat, nat> := f.kids[d.parent][d.port := |f.places|];
    Forest(f.places + [d], f.kids[d.parent := siblings] + [map[]], f.roots)
  }

  /** Node `j` is node `k` or below it. */
  ghost predicate Under(f: Forest, k: nat, j: nat)
    requires IsForest(f) && j < |f.places|
  {
    j == k || (f.places[j].Device? && Under(f, k, f.places[j].parent))
  }

  /** The child of `k` on the way down to `j`. */
  ghost function Toward(f: Forest, k: nat, j: nat): (c: nat)
    requires IsForest(f) && j < |f.places| && j != k && Under(f, k, j)
    ensures k < c <= j && f.places[c].Device? && f.places[c].parent == k
  {
    if f.places[j].parent == k then j else Toward(f, k, f.places[j].parent)
  }

  lemma {:induction false} UnderLater(f: Forest, k: nat, j: nat)
    requires IsForest(f) && j < |f.places| && j < k
    ensures !Under(f, k, j)
    decreases j
  {
    if f.places[j].Device? {
      UnderLater(f, k, f.places[j].parent);
    }
  }

  lemma {:induction false} UnderChild(f: Forest, k: nat, c: nat, j: nat)
    requires IsForest(f) && k < c < |f.places| && j < |f.places|
    requires f.places[c].Device? && f.places[c].parent == k
    ensures Under(f, c, j) <==> j != k && Under(f, k, j) && Toward(f, k, j) == c
    decreases j
  {
    if j == c {
      assert Under(f, k, k);
    } else if f.places[j].Device? {
      UnderChild(f, k, c, f.places[j].parent);
      if j == k {
        UnderLater(f, k, f.places[j].parent);
      }
    }
  }

  /** The nodes below a root are exactly those of its bus that were placed. */
  lemma {:induction false} UnderRoot(f: Forest, k: nat, j: nat)
    requires IsForest(f) && k < |f.places| && j < |f.places| && f.places[k].Root?
    ensures Under(f, k, j) <==> f.places[j].bus == f.places[k].bus
    decreases j
  {
    assert Hangs(f, j) && Hangs(f, k);
    if f.places[j].Device? {
      UnderRoot(f, k, f.places[j].parent);
    }
  }

  // --------------------------------------------------- the forest of a listing

  /** `f` holds the devices of the lines before `n`, each once and where its
      line puts it; `at` tells which place is whose. */
  ghost predicate Listed(lines: seq<Line>, n: nat, f: Forest, at: map<nat, nat>)
    requires n <= |lines| && IsForest(f)
  {
    && (forall i :: i in at <==> 0 <= i < n && lines[i].T?)
    && (forall i :: i in at ==> at[i] < |f.places| && f.places[at[i]].Device? && f.places[at[i]].line == i)
    && (forall k :: 0 <= k < |f.places| ==> Follows(lines, n, f, at, k))
  }

  /** Device `k` is the one place of its line: on its bus, on its port counted
      from 1, and under the node that it names. */
  ghost predicate Follows(lines: seq<Line>, n: nat, f: Forest, at: map<nat, nat>, k: nat)
    requires n <= |lines| && IsForest(f) && k < |f.places|
  {
    var d := f.places[k];
    d.Device? ==>
      && d.line < n
      && d.line in at && at[d.line] == k
      && lines[d.line].T?
      && lines[d.line].bus == d.bus
      && lines[d.line].dev == d.dev
      && lines[d.line].port + 1 == d.port
      && IsNamed(lines[d.line].prnt, f.places[d.parent])
  }

  /** The root is named 0, and a device by its number. */
  predicate IsNamed(name: nat, place: Place) {
    if name == 0 then place.Root? else place.Device? && place.dev == name
  }

  lemma AddBus(lines: seq<Line>, n: nat, f: Forest, at: map<nat, nat>, bus: nat)
    requires n <= |lines| && IsForest(f) && Listed(lines, n, f, at)
    requires bus !in f.roots
    ensures IsForest(WithBus(f, bus)) && Listed(lines, n, WithBus(f, bus), at)
  {
    var g := WithBus(f, bus);
    forall k | 0 <= k < |g.places|
      ensures Hangs(g, k)
    {
      assert k < |f.places| ==> Hangs(f, k);
    }
    forall k, p: nat | 0 <= k < |g.places|
      ensures Holds(g, k, p)
    {
      assert k < |f.places| ==> Holds(f, k, p);
    }
    assert IsForest(g);
    forall k | 0 <= k < |g.places|
      ensures Follows(lines, n, g, at, k)
    {
      assert k < |f.places| ==> Follows(lines, n, f, at, k);
    }
  }

  lemma AddDevice(lines: seq<Line>, n: nat, f: Forest, at: map<nat, nat>, parent: nat)
    requires n < |lines| && IsForest(f) && Listed(lines, n, f, at)
    requires lines[n].T? && parent < |f.places| && f.places[parent].bus == lines[n].bus
    requires IsNamed(lines[n].prnt, f.places[parent]) && lines[n].port + 1 !in f.kids[parent]
    ensures var d := Device(lines[n].bus, lines[n].dev, n, parent, lines[n].port + 1);
            IsForest(WithDevice(f, d)) && Listed(lines, n + 1, WithDevice(f, d), at[n := |f.places|])
  {
    var d := Device(lines[n].bus, lines[n].dev, n, parent, lines[n].port + 1);
    var g := WithDevice(f, d);
    assert Hangs(f, parent);
    forall k | 0 <= k < |g.places|
      ensures Hangs(g, k)
    {
      assert k < |f.places| ==> Hangs(f, k);
    }
    forall k, p: nat | 0 <= k < |g.places|
      ensures Holds(g, k, p)
    {
      assert k < |f.places| ==> Holds(f, k, p);
    }
    assert IsForest(g);
    var next, there: map<nat, nat> := n + 1, at[n := |f.places|];
    forall k | 0 <= k < |g.places|
      ensures Follows(lines, next, g, there, k)
    {
      assert k < |f.places| ==> Follows(lines, n, f, at, k);
    }
  }

  /** A name that no node of the bus has was not listed. */
  lemma NoParent(lines: seq<Line>, n: nat, f: Forest, at: map<nat, nat>)
    requires n < |lines| && IsForest(f) && Listed(lines, n, f, at)
    requires lines[n].T? && lines[n].prnt != 0
    requires forall k :: 0 <= k < |f.places| && f.places[k].bus == lines[n].bus ==> f.places[k].Number() != lines[n].prnt
    ensures !ParentPrecedes(lines, n)
  {
    forall j | 0 <= j < n && lines[j].T? && lines[j].bus == lines[n].bus
      ensures lines[j].dev != lines[n].prnt
    {
      assert Follows(lines, n, f, at, at[j]);
    }
  }

  /** A parent that was found was listed, and has the port free where the
      listing has. */
  lemma FoundParent(lines: seq<Line>, n: nat, f: Forest, at: map<nat, nat>, parent: nat)
    requires n < |lines| && IsForest(f) && Listed(lines, n, f, at)
    requires lines[n].T? && parent < |f.places| && f.places[parent].bus == lines[n].bus
    requires IsNamed(lines[n].prnt, f.places[parent])
    ensures ParentPrecedes(lines, n)
    ensures lines[n].port + 1 in f.kids[parent] ==> !PortFree(lines, n)
    ensures UniqueDevices(lines) && !PortFree(lines, n) ==> lines[n].port + 1 in f.kids[parent]
  {
    assert Follows(lines, n, f, at, parent);
    var port := lines[n].port + 1;
    if port in f.kids[parent] {
      assert Holds(f, parent, port);
      assert Hangs(f, f.kids[parent][port]);
      assert Follows(lines, n, f, at, f.kids[parent][port]);
    }
    if UniqueDevices(lines) && !PortFree(lines, n) {
      var j :| 0 <= j < n && lines[j].T? && lines[j].bus == lines[n].bus && lines[j].prnt == lines[n].prnt
               && lines[j].port == lines[n].port;
      assert Follows(lines, n, f, at, at[j]);
      assert Hangs(f, at[j]);
      SameNode(lines, n, f, at, parent, f.places[at[j]].parent);
    }
  }

  /** Where device numbers are unique, a number and a bus tell the node. */
  lemma SameNode(lines: seq<Line>, n: nat, f: Forest, at: map<nat, nat>, j: nat, k: nat)
    requires n <= |lines| && IsForest(f) && Listed(lines, n, f, at) && UniqueDevices(lines)
    requires j < |f.places| && k < |f.places| && f.places[j].bus == f.places[k].bus
    requires f.places[j].Number() == f.places[k].Number()
    ensures j == k
  {
    assert Hangs(f, j) && Hangs(f, k);
    assert Follows(lines, n, f, at, j) && Follows(lines, n, f, at, k);
  }

  /** A line that is no T line lists nothing. */
  lemma ListedOn(lines: seq<Line>, n: nat, f: Forest, at: map<nat, nat>)
    requires n < |lines| && IsForest(f) && Listed(lines, n, f, at) && !lines[n].T?
    ensures Listed(lines, n + 1, f, at)
  {
    var next := n + 1;
    forall k | 0 <= k < |f.places|
      ensures Follows(lines, next, f, at, k)
    {
      assert Follows(lines, n, f, at, k);
    }
  }

  /** What one more line does to the serial number of an earlier device. */
  lemma SerialStep(lines: seq<Line>, n: nat, f: Forest, at: map<nat, nat>, k: nat)
    requires n < |lines| && IsForest(f) && Listed(lines, n, f, at)
    requires k < |f.places| && f.places[k].Device?
    ensures SerialOf(lines, f.places[k].line, n + 1) ==
            if lines[n].S? && LastDevice(lines, n).Some? && at[LastDevice(lines, n).value] == k then Some(lines[n].serial)
            else SerialOf(lines, f.places[k].line, n)
  {
    assert Follows(lines, n, f, at, k);
  }
}
