/** The loop of _ParseManifestFromApk on dictionaries that are updated in place. */
module ManifestParser {
  import opened Wrappers
  import opened Manifest

  datatype Value = Str(text: string) | List(nodes: seq<Node>)

  /** A dictionary under construction. */
  class Node {
    var entries: map<string, Value>

    constructor ()
      ensures entries == map[]
    {
      entries := map[];
    }
  }

  ghost predicate SameEntry(objs: seq<Node>, v: Value, e: Entry) {
    match e
    case Attr(text) => v == Str(text)
    case Kids(ids) =>
      v.List? && |v.nodes| == |ids| &&
      forall j :: 0 <= j < |ids| ==> ids[j] < |objs| && v.nodes[j] == objs[ids[j]]
  }

  /** The objects are the numbered dictionaries, references and all. */
  ghost predicate Mirrors(objs: seq<Node>, nodes: seq<Dict>)
    reads objs
  {
    |objs| == |nodes| && (forall i, j :: 0 <= i < j < |objs| ==> objs[i] != objs[j]) &&
    forall i :: 0 <= i < |objs| ==> SameDict(objs, objs[i].entries, nodes[i])
  }

  ghost predicate SameDict(objs: seq<Node>, entries: map<string, Value>, d: Dict) {
    entries.Keys == d.Keys && forall key <- d :: SameEntry(objs, entries[key], d[key])
  }

  /** node_stack holds references into the tree, as Parser.stack holds numbers. */
  ghost predicate SameStack(objs: seq<Node>, nodeStack: seq<Node>, stack: seq<Id>) {
    |nodeStack| == |stack| && forall i :: 0 <= i < |stack| ==> stack[i] < |objs| && nodeStack[i] == objs[stack[i]]
  }

  lemma SameDictGrows(objs: seq<Node>, more: seq<Node>, entries: map<string, Value>, d: Dict)
    requires SameDict(objs, entries, d)
    ensures SameDict(objs + more, entries, d)
  {
    forall key <- d
      ensures SameEntry(objs + more, entries[key], d[key])
    {
      assert SameEntry(objs, entries[key], d[key]);
    }
  }

  lemma SameStackCut(objs: seq<Node>, nodeStack: seq<Node>, stack: seq<Id>, n: nat)
    requires SameStack(objs, nodeStack, stack)
    ensures SameStack(objs, Cut(nodeStack, n), Cut(stack, n))
  {
  }

  lemma SameStackPush(objs: seq<Node>, nodeStack: seq<Node>, stack: seq<Id>, node: Node)
    requires SameStack(objs, nodeStack, stack)
    ensures SameStack(objs + [node], nodeStack + [node], stack + [|objs|])
  {
  }

  method AddChild(node: Node, name: string, ghost objs: seq<Node>, ghost nodes: seq<Dict>, ghost id: Id)
    returns (r: Result<Node, Error>)
    requires Mirrors(objs, nodes) && id < |objs| && objs[id] == node
    modifies node
    ensures r.Err? ==> WithKid(nodes[id], name, |nodes|) == Err(r.error)
    ensures r.Ok? ==> fresh(r.value) && WithKid(nodes[id], name, |nodes|).Ok?
    ensures r.Ok? ==>
      Mirrors(objs + [r.value], nodes[id := nodes[id][name := WithKid(nodes[id], name, |nodes|).value]] + [map[]])
  {
    ghost var entries := node.entries;
    assert SameDict(objs, entries, nodes[id]);
    if name in node.entries && node.entries[name].Str? {
      assert SameEntry(objs, entries[name], nodes[id][name]);
      return Err(NotAList);
    }
    var child := new Node();
    if name in node.entries {
      assert SameEntry(objs, entries[name], nodes[id][name]);
      node.entries := node.entries[name := List(node.entries[name].nodes + [child])];
    } else {
      node.entries := node.entries[name := List([child])];
    }
    r := Ok(child);
    ghost var objs' := objs + [child];
    ghost var entry := WithKid(nodes[id], name, |nodes|).value;
    ghost var nodes' := nodes[id := nodes[id][name := entry]] + [map[]];
    forall i | 0 <= i < |objs'|
      ensures SameDict(objs', objs'[i].entries, nodes'[i])
    {
      if i < |objs| {
        SameDictGrows(objs, [child], old(objs[i].entries), nodes[i]);
        assert i != id ==> objs[i].entries == old(objs[i].entries);
      }
      if i == id {
        assert SameEntry(objs', node.entries[name], entry);
      }
    }
  }

  method AddAttribute(node: Node, key: string, value: string, ghost objs: seq<Node>, ghost nodes: seq<Dict>, ghost id: Id)
    returns (r: Outcome<Error>)
    requires Mirrors(objs, nodes) && id < |objs| && objs[id] == node
    modifies node
    ensures r == if key in nodes[id] then Fail(DuplicateKey) else Pass
    ensures r.Pass? ==> Mirrors(objs, nodes[id := nodes[id][key := Attr(value)]])
  {
    assert SameDict(objs, node.entries, nodes[id]);
    if key in node.entries {
      return Fail(DuplicateKey);
    }
    node.entries := node.entries[key := Str(value)];
    r := Pass;
    forall i | 0 <= i < |objs| && i != id
      ensures SameDict(objs, objs[i].entries, nodes[i])
    {
      assert objs[i] != node;
      assert SameDict(objs, old(objs[i].entries), nodes[i]);
    }
  }

  /** What a line does to the node that it is attached to. */
  method ReadItem(stack: seq<Node>, item: Item, ghost p: Parser, ghost objs: seq<Node>, ghost line: Line)
    returns (r: Result<seq<Node>, Error>, ghost objs': seq<Node>)
    requires p.Valid() && Mirrors(objs, p.nodes)
    requires line.Text? && line.item == item && SameStack(objs, stack, Cut(p.stack, line.depth)) && stack != []
    modifies objs
    ensures r.Err? ==> Step(p, line) == Err(r.error)
    ensures r.Ok? ==> Step(p, line).Ok?
    ensures r.Ok? ==> objs <= objs' && forall i :: |objs| <= i < |objs'| ==> fresh(objs'[i])
    ensures r.Ok? ==> Mirrors(objs', Step(p, line).value.nodes) && SameStack(objs', r.value, Step(p, line).value.stack)
  {
    objs' := objs;
    var node := stack[|stack| - 1];
    ghost var ids := Cut(p.stack, line.depth);
    ghost var id := ids[|ids| - 1];
    match item {
      case Element(name) =>
        var child := AddChild(node, name, objs, p.nodes, id);
        if child.Err? {
          return Err(child.error), objs;
        }
        SameStackPush(objs, stack, ids, child.value);
        r, objs' := Ok(stack + [child.value]), objs + [child.value];
      case Attribute(key, value) =>
        var added := AddAttribute(node, key, value, objs, p.nodes, id);
        r := if added.Fail? then Err(added.error) else Ok(stack);
      case Other =>
        r := Ok(stack);
    }
  }

  /** One pass of the loop: the new node_stack, or an exception. */
  method ReadLine(nodeStack: seq<Node>, line: Line, ghost p: Parser, ghost objs: seq<Node>)
    returns (r: Result<seq<Node>, Error>, ghost objs': seq<Node>)
    requires p.Valid() && Mirrors(objs, p.nodes) && SameStack(objs, nodeStack, p.stack)
    modifies objs
    ensures r.Err? ==> Step(p, line) == Err(r.error)
    ensures r.Ok? ==> Step(p, line).Ok?
    ensures r.Ok? ==> objs <= objs' && forall i :: |objs| <= i < |objs'| ==> fresh(objs'[i])
    ensures r.Ok? ==> Mirrors(objs', Step(p, line).value.nodes) && SameStack(objs', r.value, Step(p, line).value.stack)
  {
    if line.Blank? {
      return Ok(nodeStack), objs;
    }
    var stack := Cut(nodeStack, line.depth);
    if stack == [] {
      return Err(IndexError), objs;
    }
    SameStackCut(objs, nodeStack, p.stack, line.depth);
    r, objs' := ReadItem(stack, line.item, p, objs, line);
  }

  /** An exception ends the loop. */
  lemma {:induction false} RunStaysFailed(lines: seq<Line>, k: nat)
    requires k <= |lines| && Run(START, lines[..k]).Err?
    ensures Run(START, lines) == Run(START, lines[..k])
    decreases |lines|
  {
    if k == |lines| {
      assert lines[..k] == lines;
    } else {
      var front := lines[..|lines| - 1];
      assert front[..k] == lines[..k];
      RunStaysFailed(front, k);
    }
  }

  lemma RunTo(lines: seq<Line>, k: nat, p: Parser)
    requires k < |lines| && p.Valid() && Run(START, lines[..k]) == Ok(p)
    ensures Run(START, lines[..k + 1]) == Step(p, lines[k])
    ensures Step(p, lines[k]).Err? ==> Run(START, lines) == Step(p, lines[k])
  {
    assert lines[..k + 1][..k] == lines[..k];
    if Step(p, lines[k]).Err? {
      RunStaysFailed(lines, k + 1);
    }
  }

  /** Skips the first line of the dump, and leaves a graph of dictionaries that
      mirrors the one described by Run. */
  method ParseManifest(dump: seq<Line>) returns (r: Result<Node, Error>, ghost objs: seq<Node>)
    ensures var run := Run(START, if dump == [] then [] else dump[1..]);
      if r.Err? then run == Err(r.error) else run.Ok?
    ensures r.Ok? ==>
      objs != [] && objs[0] == r.value &&
      Mirrors(objs, Run(START, if dump == [] then [] else dump[1..]).value.nodes)
  {
    var lines := if dump == [] then [] else dump[1..];
    var root := new Node();
    var nodeStack := [root];
    objs := [root];
    ghost var p := START;
    for k := 0 to |lines|
      invariant p.Valid() && Run(START, lines[..k]) == Ok(p)
      invariant (forall i :: 0 <= i < |objs| ==> fresh(objs[i])) && objs != [] && objs[0] == root
      invariant Mirrors(objs, p.nodes) && SameStack(objs, nodeStack, p.stack)
    {
      RunTo(lines, k, p);
      var stack, objs' := ReadLine(nodeStack, lines[k], p, objs);
      if stack.Err? {
        return Err(stack.error), objs;
      }
      nodeStack, objs, p := stack.value, objs', Step(p, lines[k]).value;
    }
    assert lines[..|lines|] == lines;
    r := Ok(root);
  }

  // ---------------------------------------------------------- trees of objects

  /** What a dictionary object holds under a key is that of body, its children
      being trees of objects again. */
  ghost predicate IsEntry(objs: seq<Node>, node: Node, key: string, body: Body)
    requires node in objs
    reads objs
    decreases body, 0
  {
    var values, children := Values(body, key), Children(body, key);
    if values != [] then key in node.entries && node.entries[key] == Str(values[0])
    else if children != [] then
      key in node.entries && node.entries[key].List? && |node.entries[key].nodes| == |children| &&
      forall i :: 0 <= i < |children| ==> IsTree(objs, node.entries[key].nodes[i], children[i])
    else key !in node.entries
  }

  ghost predicate IsTree(objs: seq<Node>, node: Node, body: Body)
    reads objs
    decreases body, 1
  {
    node in objs && forall key :: IsEntry(objs, node, key, body)
  }

  lemma {:induction false} MirroredTree(objs: seq<Node>, nodes: seq<Dict>, id: Id, body: Body)
    requires Mirrors(objs, nodes) && Represents(nodes, id, body)
    ensures IsTree(objs, objs[id], body)
    decreases body
  {
    forall key
      ensures IsEntry(objs, objs[id], key, body)
    {
      assert EntryIs(nodes, id, key, body) && SameDict(objs, objs[id].entries, nodes[id]);
      var children := Children(body, key);
      if Values(body, key) != [] || children != [] {
        assert SameEntry(objs, objs[id].entries[key], nodes[id][key]);
      }
      if Values(body, key) == [] && children != [] {
        forall i | 0 <= i < |children|
          ensures IsTree(objs, objs[id].entries[key].nodes[i], children[i])
        {
          MirroredTree(objs, nodes, nodes[id][key].ids[i], children[i]);
        }
      }
    }
  }

  /** The dump of a tree, one line and its listing, is parsed exactly when the
      tree is well-formed, and the dictionaries then linked from the root are
      the tree. */
  method ParseTree(dump: seq<Line>, ghost body: Body) returns (r: Result<Node, Error>, ghost objs: seq<Node>)
    requires dump != [] && dump[1..] == Listing(body, 1)
    ensures r.Ok? <==> WellFormed(body)
    ensures r.Ok? ==> IsTree(objs, r.value, body)
  {
    r, objs := ParseManifest(dump);
    ParseListing(body);
    if r.Ok? {
      MirroredTree(objs, Run(START, Listing(body, 1)).value.nodes, 0, body);
    }
  }
}
