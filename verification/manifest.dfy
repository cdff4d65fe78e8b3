/** apk_helper.py: rebuilding the manifest tree from the indented listing of aapt. */
module Manifest {
  import opened Sequences
  import opened Wrappers

  // -------------------------------------------------------------------- lines

  datatype Item =
    | Element(name: string)
    | Attribute(key: string, value: string)
    | Other                                     // neither expression matches

  /** One line of the dump: its indent depth and what follows the indent. */
  datatype Line = Blank | Text(depth: nat, item: Item)

  datatype Error =
    | IndexError      // a line without indent leaves no node to attach to
    | DuplicateKey    // an attribute under a key that is taken
    | NotAList        // an element under the name of an attribute

  // ---------------------------------------------------- dictionaries by number

  /** Nested dictionaries, numbered in the order in which they are created. */
  type Id = nat

  datatype Entry = Attr(value: string) | Kids(ids: seq<Id>)

  type Dict = map<string, Entry>

  /** The variables of the loop: all dictionaries so far, and node_stack. */
  datatype Parser = Parser(nodes: seq<Dict>, stack: seq<Id>) {
    predicate Valid() {
      forall i :: 0 <= i < |stack| ==> stack[i] < |nodes|
    }
  }

  const START := Parser([map[]], [0])

  function Cut<T>(s: seq<T>, n: nat): seq<T> {
    if n < |s| then s[..n] else s
  }

  /** The entry for a new child number id under a key. */
  function WithKid(d: Dict, key: string, id: Id): Result<Entry, Error> {
    if key !in d then Ok(Kids([id]))
    else if d[key].Attr? then Err(NotAList)
    else Ok(Kids(d[key].ids + [id]))
  }

  function Step(p: Parser, line: Line): (r: Result<Parser, Error>)
    requires p.Valid()
    ensures r.Ok? ==> r.value.Valid()
  {
    if line.Blank? then Ok(p) else
    var stack := Cut(p.stack, line.depth);
    if stack == [] then Err(IndexError) else
    var node := stack[|stack| - 1];
    var d := p.nodes[node];
    match line.item
    case Element(name) =>
      var id := |p.nodes|;
      var entry := WithKid(d, name, id);
      if entry.Err? then Err(entry.error)
      else Ok(Parser(p.nodes[node := d[name := entry.value]] + [map[]], stack + [id]))
    case Attribute(key, value) =>
      if key in d then Err(DuplicateKey)
      else Ok(Parser(p.nodes[node := d[key := Attr(value)]], stack))
    case Other => Ok(p.(stack := stack))
  }

  function Run(p: Parser, lines: seq<Line>): (r: Result<Parser, Error>)
    requires p.Valid()
    ensures r.Ok? ==> r.value.Valid()
    decreases |lines|
  {
    if lines == [] then Ok(p) else
    var before := Run(p, lines[..|lines| - 1]);
    if before.Err? then before else Step(before.value, lines[|lines| - 1])
  }

  // -------------------------------------------------------------------- trees

  /** What is inside an element, in document order, with the lines that the
      parser skips. */
  datatype Body =
    | End
    | WithAttr(key: string, value: string, rest: Body)
    | WithChild(name: string, body: Body, rest: Body)
    | WithNoise(blank: bool, rest: Body)

  /** The pre-order listing of a body whose lines are indented to depth. */
  function Listing(body: Body, depth: nat): seq<Line> {
    match body
    case End => []
    case WithAttr(key, value, rest) => [Text(depth, Attribute(key, value))] + Listing(rest, depth)
    case WithChild(name, inner, rest) =>
      [Text(depth, Element(name))] + Listing(inner, depth + 1) + Listing(rest, depth)
    case WithNoise(blank, rest) => [if blank then Blank else Text(depth, Other)] + Listing(rest, depth)
  }

  /** The values of all attributes with this key, in document order. */
  function Values(body: Body, key: string): seq<string> {
    match body
    case End => []
    case WithAttr(k, value, rest) => (if k == key then [value] else []) + Values(rest, key)
    case WithChild(_, _, rest) => Values(rest, key)
    case WithNoise(_, rest) => Values(rest, key)
  }

  /** All children with this name, in document order. */
  function Children(body: Body, name: string): (r: seq<Body>)
    ensures forall i :: 0 <= i < |r| ==> r[i] < body
  {
    match body
    case End => []
    case WithAttr(_, _, rest) => Children(rest, name)
    case WithChild(n, inner, rest) => (if n == name then [inner] else []) + Children(rest, name)
    case WithNoise(_, rest) => Children(rest, name)
  }

  /** In every element, the attribute keys are distinct and differ from the
      names of the child elements. */
  ghost predicate WellFormed(body: Body) {
    (forall key :: |Values(body, key)| <= 1 && (Values(body, key) == [] || Children(body, key) == [])) &&
    (forall key, i :: 0 <= i < |Children(body, key)| ==> WellFormed(Children(body, key)[i]))
  }

  /** The entry d has for key is that of body: the value of the attribute, or
      the list of the children of that name, in document order. Dictionaries
      of children are numbered higher than id. */
  ghost predicate EntryIs(nodes: seq<Dict>, id: Id, key: string, body: Body)
    requires id < |nodes|
    decreases body, 0
  {
    var values, children := Values(body, key), Children(body, key);
    var d := nodes[id];
    if values != [] then key in d && d[key] == Attr(values[0])
    else if children != [] then
      key in d && d[key].Kids? && |d[key].ids| == |children| &&
      forall i :: 0 <= i < |children| ==>
        id < d[key].ids[i] < |nodes| && Represents(nodes, d[key].ids[i], children[i])
    else key !in d
  }

  /** Dictionary id, with all that it holds, is body. */
  ghost predicate Represents(nodes: seq<Dict>, id: Id, body: Body)
    decreases body, 1
  {
    id < |nodes| && forall key :: EntryIs(nodes, id, key, body)
  }

  // ------------------------------------------------------------ body by body

  function Append(a: Body, b: Body): Body {
    match a
    case End => b
    case WithAttr(key, value, rest) => WithAttr(key, value, Append(rest, b))
    case WithChild(name, inner, rest) => WithChild(name, inner, Append(rest, b))
    case WithNoise(blank, rest) => WithNoise(blank, Append(rest, b))
  }

  lemma {:induction false} AppendParts(a: Body, b: Body, key: string)
    ensures Values(Append(a, b), key) == Values(a, key) + Values(b, key)
    ensures Children(Append(a, b), key) == Children(a, key) + Children(b, key)
  {
    match a
    case End =>
    case WithAttr(k, value, rest) =>
      AppendParts(rest, b, key);
      Associate(if k == key then [value] else [], Values(rest, key), Values(b, key));
    case WithChild(name, inner, rest) =>
      AppendParts(rest, b, key);
      Associate(if name == key then [inner] else [], Children(rest, key), Children(b, key));
    case WithNoise(_, rest) => AppendParts(rest, b, key);
  }

  lemma {:induction false} AppendAppend(a: Body, b: Body, c: Body)
    ensures Append(a, End) == a
    ensures Append(Append(a, b), c) == Append(a, Append(b, c))
  {
    match a
    case End =>
    case WithAttr(_, _, rest) => AppendAppend(rest, b, c);
    case WithChild(_, _, rest) => AppendAppend(rest, b, c);
    case WithNoise(_, rest) => AppendAppend(rest, b, c);
  }

  lemma {:induction false} RunConcat(p: Parser, a: seq<Line>, b: seq<Line>)
    requires p.Valid()
    ensures Run(p, a + b) == if Run(p, a).Err? then Run(p, a) else Run(Run(p, a).value, b)
    decreases |b|
  {
    if b == [] {
      assert a + b == a;
    } else {
      assert (a + b)[..|a + b| - 1] == a + b[..|b| - 1];
      RunConcat(p, a, b[..|b| - 1]);
    }
  }

  lemma RunOne(p: Parser, line: Line)
    requires p.Valid()
    ensures Run(p, [line]) == Step(p, line)
  {
    assert [line][..0] == [];
  }

  /** Dictionaries do not change when later ones are added and lower ones change. */
  lemma {:induction false} RepresentsLater(nodes: seq<Dict>, nodes': seq<Dict>, id: Id, body: Body)
    requires Represents(nodes, id, body) && |nodes| <= |nodes'|
    requires forall j :: id <= j < |nodes| ==> nodes'[j] == nodes[j]
    ensures Represents(nodes', id, body)
    decreases body
  {
    forall key
      ensures EntryIs(nodes', id, key, body)
    {
      assert EntryIs(nodes, id, key, body);
      var children := Children(body, key);
      if Values(body, key) == [] && children != [] {
        forall i | 0 <= i < |children|
          ensures Represents(nodes', nodes[id][key].ids[i], children[i])
        {
          RepresentsLater(nodes, nodes', nodes[id][key].ids[i], children[i]);
        }
      }
    }
  }

  /** An entry stays that of a body which only grows under other keys. */
  lemma EntryLater(nodes: seq<Dict>, nodes': seq<Dict>, id: Id, key: string, body: Body, body': Body)
    requires id < |nodes| <= |nodes'| && EntryIs(nodes, id, key, body)
    requires forall j :: id < j < |nodes| ==> nodes'[j] == nodes[j]
    requires key in nodes[id] <==> key in nodes'[id]
    requires key in nodes[id] ==> nodes'[id][key] == nodes[id][key]
    requires Values(body', key) == Values(body, key) && Children(body', key) == Children(body, key)
    ensures EntryIs(nodes', id, key, body')
  {
    var children := Children(body, key);
    if Values(body, key) == [] && children != [] {
      forall i | 0 <= i < |children|
        ensures Represents(nodes', nodes[id][key].ids[i], children[i])
      {
        RepresentsLater(nodes, nodes', nodes[id][key].ids[i], children[i]);
      }
    }
  }

  /** The dictionary of an element whose lines are being read: open at depth, done so far. */
  ghost predicate At(p: Parser, depth: nat, done: Body) {
    p.Valid() && 1 <= depth <= |p.stack| && Represents(p.nodes, p.stack[depth - 1], done) && WellFormed(done)
  }

  /** Nothing but the dictionary open at depth, and newer ones, has been written. */
  ghost predicate Grown(p: Parser, p': Parser, depth: nat) {
    1 <= depth <= |p.stack| && depth <= |p'.stack| && p'.stack[..depth] == p.stack[..depth] &&
    |p.nodes| <= |p'.nodes| &&
    forall j :: 0 <= j < |p.nodes| && j != p.stack[depth - 1] ==> p'.nodes[j] == p.nodes[j]
  }

  function PlusAttr(body: Body, key: string, value: string): Body {
    Append(body, WithAttr(key, value, End))
  }

  lemma PlusAttrParts(body: Body, key: string, value: string, k: string)
    ensures Values(PlusAttr(body, key, value), k) == Values(body, k) + if k == key then [value] else []
    ensures Children(PlusAttr(body, key, value), k) == Children(body, k)
  {
    AppendParts(body, WithAttr(key, value, End), k);
  }

  lemma PlusAttrWellFormed(body: Body, key: string, value: string)
    requires WellFormed(body)
    ensures WellFormed(PlusAttr(body, key, value)) <==> Values(body, key) == [] && Children(body, key) == []
  {
    var body' := PlusAttr(body, key, value);
    forall k
      ensures Values(body', k) == Values(body, k) + if k == key then [value] else []
      ensures Children(body', k) == Children(body, k)
    {
      PlusAttrParts(body, key, value, k);
    }
    assert |Values(body', key)| == |Values(body, key)| + 1;
  }

  lemma AttrAdded(nodes: seq<Dict>, nodes': seq<Dict>, node: Id, k: string, done: Body, key: string, value: string)
    requires node < |nodes| && EntryIs(nodes, node, k, done) && key !in nodes[node]
    requires Values(done, key) == [] && Children(done, key) == []
    requires nodes' == nodes[node := nodes[node][key := Attr(value)]]
    ensures EntryIs(nodes', node, k, PlusAttr(done, key, value))
  {
    PlusAttrParts(done, key, value, k);
    if k != key {
      EntryLater(nodes, nodes', node, k, done, PlusAttr(done, key, value));
    }
  }

  lemma AttrStep(p: Parser, depth: nat, done: Body, key: string, value: string)
    requires At(p, depth, done)
    ensures var r := Step(p, Text(depth, Attribute(key, value)));
      var done' := PlusAttr(done, key, value);
      (r.Ok? <==> WellFormed(done')) && (r.Ok? ==> At(r.value, depth, done') && Grown(p, r.value, depth))
  {
    var r := Step(p, Text(depth, Attribute(key, value)));
    var node := p.stack[depth - 1];
    var done' := PlusAttr(done, key, value);
    assert Cut(p.stack, depth) == p.stack[..depth];
    assert EntryIs(p.nodes, node, key, done);
    PlusAttrWellFormed(done, key, value);
    if r.Ok? {
      forall k
        ensures EntryIs(r.value.nodes, node, k, done')
      {
        assert EntryIs(p.nodes, node, k, done);
        AttrAdded(p.nodes, r.value.nodes, node, k, done, key, value);
      }
      assert r.value.stack[depth - 1] == node && Represents(r.value.nodes, node, done');
    }
  }

  function PlusChild(body: Body, name: string, inner: Body): Body {
    Append(body, WithChild(name, inner, End))
  }

  lemma PlusChildParts(body: Body, name: string, inner: Body, k: string)
    ensures Values(PlusChild(body, name, inner), k) == Values(body, k)
    ensures Children(PlusChild(body, name, inner), k) == Children(body, k) + if k == name then [inner] else []
  {
    AppendParts(body, WithChild(name, inner, End), k);
  }

  lemma PlusChildWellFormed(body: Body, name: string, inner: Body)
    requires WellFormed(body)
    ensures WellFormed(PlusChild(body, name, inner)) <==> Values(body, name) == [] && WellFormed(inner)
  {
    var body' := PlusChild(body, name, inner);
    forall k
      ensures Values(body', k) == Values(body, k)
      ensures Children(body', k) == Children(body, k) + if k == name then [inner] else []
    {
      PlusChildParts(body, name, inner, k);
    }
    assert Children(body', name)[|Children(body, name)|] == inner;
    if Values(body, name) == [] && WellFormed(inner) {
      forall k, i | 0 <= i < |Children(body', k)|
        ensures WellFormed(Children(body', k)[i])
      {
        assert i < |Children(body, k)| ==> Children(body', k)[i] == Children(body, k)[i];
      }
    }
  }

  /** The line of a child element opens a new dictionary for it. */
  lemma ChildStep(p: Parser, depth: nat, done: Body, name: string)
    requires At(p, depth, done)
    ensures var r := Step(p, Text(depth, Element(name)));
      (r.Ok? <==> Values(done, name) == []) &&
      (r.Ok? ==> At(r.value, depth + 1, End) && Grown(p, r.value, depth) &&
                 var node := p.stack[depth - 1];
                 var id := |p.nodes|;
                 r.value.stack == p.stack[..depth] + [id] && |r.value.nodes| == id + 1 &&
                 WithKid(p.nodes[node], name, id).Ok? &&
                 r.value.nodes[node] == p.nodes[node][name := WithKid(p.nodes[node], name, id).value])
  {
    assert Cut(p.stack, depth) == p.stack[..depth];
    assert EntryIs(p.nodes, p.stack[depth - 1], name, done);
    var r := Step(p, Text(depth, Element(name)));
    if r.Ok? {
      forall k
        ensures EntryIs(r.value.nodes, |p.nodes|, k, End)
      {
      }
    }
  }

  /** When the lines inside a child have been read, the parent has it. */
  lemma ChildDone(p: Parser, p1: Parser, p2: Parser, depth: nat, done: Body, name: string, inner: Body)
    requires At(p, depth, done) && Values(done, name) == []
    requires Ok(p1) == Step(p, Text(depth, Element(name)))
    requires At(p2, depth + 1, inner) && Grown(p1, p2, depth + 1)
    ensures At(p2, depth, PlusChild(done, name, inner)) && Grown(p, p2, depth)
  {
    ChildStep(p, depth, done, name);
    var node, id := p.stack[depth - 1], |p.nodes|;
    var done' := PlusChild(done, name, inner);
    PlusChildWellFormed(done, name, inner);
    assert p2.stack[..depth] == p2.stack[..depth + 1][..depth] == p.stack[..depth];
    assert p2.stack[depth] == p2.stack[..depth + 1][depth] == id;
    forall k
      ensures EntryIs(p2.nodes, node, k, done')
    {
      PlusChildParts(done, name, inner, k);
      assert EntryIs(p.nodes, node, k, done);
      if k != name {
        EntryLater(p.nodes, p2.nodes, node, k, done, done');
      } else {
        KidAdded(p.nodes, p2.nodes, node, k, id, done, done', inner);
      }
    }
    assert p2.stack[..depth][depth - 1] == node && Represents(p2.nodes, node, done');
  }

  lemma KidAdded(nodes: seq<Dict>, nodes': seq<Dict>, node: Id, name: string, id: Id, done: Body, done': Body, inner: Body)
    requires node < |nodes| == id < |nodes'| && EntryIs(nodes, node, name, done)
    requires forall j :: node < j < |nodes| ==> nodes'[j] == nodes[j]
    requires WithKid(nodes[node], name, id).Ok? && name in nodes'[node]
    requires nodes'[node][name] == WithKid(nodes[node], name, id).value
    requires Values(done, name) == [] == Values(done', name)
    requires Children(done', name) == Children(done, name) + [inner]
    requires Represents(nodes', id, inner)
    ensures EntryIs(nodes', node, name, done')
  {
    var children, ids := Children(done, name), nodes'[node][name].ids;
    if children != [] {
      forall i | 0 <= i < |children|
        ensures Represents(nodes', ids[i], children[i])
      {
        RepresentsLater(nodes, nodes', nodes[node][name].ids[i], children[i]);
      }
    }
  }

  lemma NoiseStep(p: Parser, depth: nat, done: Body, blank: bool)
    requires At(p, depth, done)
    ensures var r := Step(p, if blank then Blank else Text(depth, Other));
      r.Ok? && At(r.value, depth, Append(done, WithNoise(blank, End))) && Grown(p, r.value, depth)
  {
    var done' := Append(done, WithNoise(blank, End));
    forall k
      ensures Values(done', k) == Values(done, k) && Children(done', k) == Children(done, k)
    {
      AppendParts(done, WithNoise(blank, End), k);
    }
    var r := Step(p, if blank then Blank else Text(depth, Other));
    var node := p.stack[depth - 1];
    assert Cut(p.stack, depth) == p.stack[..depth];
    forall k
      ensures EntryIs(r.value.nodes, node, k, done')
    {
      assert EntryIs(p.nodes, node, k, done);
      EntryLater(p.nodes, r.value.nodes, node, k, done, done');
    }
    assert r.value.stack[depth - 1] == node && Represents(r.value.nodes, node, done');
  }

  // ------------------------------------------------------------ whole listings

  lemma GrownTwice(p: Parser, p1: Parser, p2: Parser, depth: nat)
    requires Grown(p, p1, depth) && Grown(p1, p2, depth)
    ensures Grown(p, p2, depth)
  {
    assert p1.stack[depth - 1] == p1.stack[..depth][depth - 1] == p.stack[..depth][depth - 1];
  }

  lemma PrefixWellFormed(a: Body, b: Body)
    requires WellFormed(Append(a, b))
    ensures WellFormed(a)
  {
    forall key
      ensures Values(Append(a, b), key) == Values(a, key) + Values(b, key)
      ensures Children(Append(a, b), key) == Children(a, key) + Children(b, key)
    {
      AppendParts(a, b, key);
    }
    forall key, i | 0 <= i < |Children(a, key)|
      ensures WellFormed(Children(a, key)[i])
    {
      assert Children(Append(a, b), key)[i] == Children(a, key)[i];
    }
  }

  /** The outcome r of some lines says whether body is well-formed, and if it is,
      the open dictionary is that of body. */
  ghost predicate Settles(p: Parser, depth: nat, r: Result<Parser, Error>, body: Body) {
    (r.Ok? <==> WellFormed(body)) && (r.Ok? ==> At(r.value, depth, body) && Grown(p, r.value, depth))
  }

  /** The lines of rest are accepted exactly when the whole body is well-formed,
      and then the open dictionary is that of the whole body. */
  lemma {:induction false} ParseRest(p: Parser, depth: nat, done: Body, rest: Body)
    requires At(p, depth, done)
    ensures Settles(p, depth, Run(p, Listing(rest, depth)), Append(done, rest))
    decreases rest, 1
  {
    AppendAppend(done, End, End);
    match rest {
      case End =>
      case WithAttr(key, value, tail) =>
        AttrStep(p, depth, done, key, value);
        AppendAppend(done, WithAttr(key, value, End), tail);
        ParseTail(p, depth, [Text(depth, Attribute(key, value))], PlusAttr(done, key, value), tail);
      case WithNoise(blank, tail) =>
        NoiseStep(p, depth, done, blank);
        AppendAppend(done, WithNoise(blank, End), tail);
        ParseTail(p, depth, [if blank then Blank else Text(depth, Other)], Append(done, WithNoise(blank, End)), tail);
      case WithChild(name, inner, tail) =>
        ParseChild(p, depth, done, name, inner);
        AppendAppend(done, WithChild(name, inner, End), tail);
        ParseTail(p, depth, [Text(depth, Element(name))] + Listing(inner, depth + 1), PlusChild(done, name, inner), tail);
    }
  }

  /** Some first lines have settled a body, and the lines of tail follow. */
  lemma ParseTail(p: Parser, depth: nat, first: seq<Line>, done: Body, tail: Body)
    requires p.Valid()
    requires (|first| == 1 && Settles(p, depth, Step(p, first[0]), done)) || Settles(p, depth, Run(p, first), done)
    ensures Settles(p, depth, Run(p, first + Listing(tail, depth)), Append(done, tail))
    decreases tail, 2
  {
    if |first| == 1 {
      RunOne(p, first[0]);
      assert first == [first[0]];
    }
    RunConcat(p, first, Listing(tail, depth));
    if WellFormed(done) {
      var p1 := Run(p, first).value;
      ParseRest(p1, depth, done, tail);
      var r := Run(p1, Listing(tail, depth));
      if r.Ok? {
        GrownTwice(p, p1, r.value, depth);
      }
    } else if WellFormed(Append(done, tail)) {
      PrefixWellFormed(done, tail);
    }
  }

  /** A child element, from its own line to the last line inside it. */
  lemma ParseChild(p: Parser, depth: nat, done: Body, name: string, inner: Body)
    requires At(p, depth, done)
    ensures Settles(p, depth, Run(p, [Text(depth, Element(name))] + Listing(inner, depth + 1)), PlusChild(done, name, inner))
    decreases inner, 3
  {
    var line := Text(depth, Element(name));
    RunOne(p, line);
    RunConcat(p, [line], Listing(inner, depth + 1));
    ChildStep(p, depth, done, name);
    if Step(p, line).Ok? {
      ParseInside(p, Step(p, line).value, depth, done, name, inner);
    } else {
      PlusChildWellFormed(done, name, inner);
    }
  }

  lemma ParseInside(p: Parser, p1: Parser, depth: nat, done: Body, name: string, inner: Body)
    requires At(p, depth, done) && Ok(p1) == Step(p, Text(depth, Element(name)))
    ensures Settles(p, depth, Run(p1, Listing(inner, depth + 1)), PlusChild(done, name, inner))
    decreases inner, 2
  {
    ChildStep(p, depth, done, name);
    ParseRest(p1, depth + 1, End, inner);
    var r := Run(p1, Listing(inner, depth + 1));
    if r.Ok? {
      ChildDone(p, p1, r.value, depth, done, name, inner);
    } else {
      PlusChildWellFormed(done, name, inner);
    }
  }

  /** Parsing the pre-order listing of any tree, its first level indented once,
      succeeds exactly when the tree is well-formed, and rebuilds the tree. */
  lemma ParseListing(body: Body)
    ensures var r := Run(START, Listing(body, 1));
      (r.Ok? <==> WellFormed(body)) && (r.Ok? ==> Represents(r.value.nodes, 0, body))
  {
    assert Represents(START.nodes, 0, End) by {
      forall key
        ensures EntryIs(START.nodes, 0, key, End)
      {
      }
    }
    ParseRest(START, 1, End, body);
    var r := Run(START, Listing(body, 1));
    if r.Ok? {
      assert r.value.stack[..1][0] == START.stack[..1][0] == 0;
    }
  }
}
