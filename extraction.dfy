/** The scan over the document's top-level children: decode every
    front-matter block and shallow-merge the results, in document order. */
module Extraction {
  import opened Values
  import opened Errors
  import opened Ast
  import opened Config

  /** The accumulator `dataGather`: absent until the first merge, an object
      after it. */
  predicate IsAccumulator(v: Value) {
    v.Undefined? || (v.Obj? && UniqueKeys(v.fields))
  }

  /** A child the scan passes over: its type has no parser, or its parser
      returns null or undefined. */
  predicate Ignored(parsers: map<string, Parser>, node: Node) {
    node.NodeType() in parsers ==>
      var d := parsers[node.NodeType()](node.Literal());
      d.Parsed? && IsNullish(d.value)
  }

  /** A child that ends the scan with an error: its parser throws, or, with
      no name configured, it decodes to something whose `typeof` is not
      'object'. */
  predicate Rejected(name: string, parsers: map<string, Parser>, node: Node) {
    node.NodeType() in parsers &&
    var d := parsers[node.NodeType()](node.Literal());
    d.Threw? || (!IsNullish(d.value) && name == "" && !IsObjectType(d.value))
  }

  /** The error a rejected child raises. */
  function Rejection(name: string, parsers: map<string, Parser>, node: Node): Error
    requires Rejected(name, parsers, node)
  {
    var d := parsers[node.NodeType()](node.Literal());
    if d.Threw? then ParserThrew(d.message) else NotAnObject(node.Literal())
  }

  /** One iteration of the loop body on child `node`. */
  function Step(name: string, parsers: map<string, Parser>, acc: Value, node: Node): (r: Result<Value>)
    requires IsAccumulator(acc)
    ensures r.Ok? ==> IsAccumulator(r.value)
  {
    if node.NodeType() !in parsers then Ok(acc)
    else
      match parsers[node.NodeType()](node.Literal())
      case Threw(message) => Err(ParserThrew(message))
      case Parsed(data) =>
        if IsNullish(data) then Ok(acc)
        else if name == "" && !IsObjectType(data) then Err(NotAnObject(node.Literal()))
        else Ok(Obj(Assign(if Truthy(acc) then acc.fields else [], OwnEntries(data))))
  }

  /** The scan over `nodes`, in order, from an absent accumulator. */
  function Gather(name: string, parsers: map<string, Parser>, nodes: seq<Node>): (r: Result<Value>)
    ensures r.Ok? ==> IsAccumulator(r.value)
    decreases |nodes|
  {
    if nodes == [] then Ok(Undefined)
    else
      match Gather(name, parsers, nodes[..|nodes| - 1])
      case Err(e) => Err(e)
      case Ok(acc) => Step(name, parsers, acc, nodes[|nodes| - 1])
  }

  /** The loop of the transformer: reads the children once, in order, and
      changes nothing. */
  method Extract(name: string, parsers: map<string, Parser>, children: seq<Node>) returns (r: Result<Value>)
    ensures r == Gather(name, parsers, children)
  {
    var acc := Undefined;
    var i := 0;
    while i < |children|
      invariant 0 <= i <= |children|
      invariant Gather(name, parsers, children[..i]) == Ok(acc)
    {
      var node := children[i];
      assert children[..i + 1][..i] == children[..i];
      ghost var next := Step(name, parsers, acc, node);
      assert Gather(name, parsers, children[..i + 1]) == next;
      if node.NodeType() in parsers {
        var parser := parsers[node.NodeType()];
        var decoded := parser(node.Literal());
        if decoded.Threw? {
          GatherErrorSticky(name, parsers, children, i + 1);
          return Err(ParserThrew(decoded.message));
        }
        var data := decoded.value;
        if !IsNullish(data) {
          if name == "" && !IsObjectType(data) {
            GatherErrorSticky(name, parsers, children, i + 1);
            return Err(NotAnObject(node.Literal()));
          }
          var target := if Truthy(acc) then acc.fields else [];
          acc := Obj(Assign(target, OwnEntries(data)));
        }
      }
      i := i + 1;
    }
    assert children[..i] == children;
    r := Ok(acc);
  }

  // ----- Reference view of the merge -----

  /** What child `node` contributes to the record: its decoded value, when
      it is a block whose parser returns something other than null or
      undefined. */
  function Contribution(parsers: map<string, Parser>, node: Node): seq<Value> {
    if node.NodeType() !in parsers then []
    else
      var d := parsers[node.NodeType()](node.Literal());
      if d.Parsed? && !IsNullish(d.value) then [d.value] else []
  }

  /** The decoded values of the blocks, in document order. */
  function Contributions(parsers: map<string, Parser>, nodes: seq<Node>): seq<Value>
    decreases |nodes|
  {
    if nodes == [] then []
    else Contributions(parsers, nodes[..|nodes| - 1]) + Contribution(parsers, nodes[|nodes| - 1])
  }

  /** The record as a dictionary: each value's own entries laid over those
      of the values before it. */
  function MergeAll(cs: seq<Value>): map<string, Value>
    decreases |cs|
  {
    if cs == [] then map[] else MergeAll(cs[..|cs| - 1]) + ToMap(OwnEntries(cs[|cs| - 1]))
  }

  /** One iteration on the dictionary view: a contributing block is laid
      over the record, any other child leaves it as it was. */
  lemma StepIsMerge(name: string, parsers: map<string, Parser>, acc: Value, node: Node, m: map<string, Value>)
    requires IsAccumulator(acc) && Step(name, parsers, acc, node).Ok?
    requires acc.Undefined? ==> m == map[]
    requires acc.Obj? ==> ToMap(acc.fields) == m
    ensures var r, c := Step(name, parsers, acc, node).value, Contribution(parsers, node);
      && (r.Undefined? <==> acc.Undefined? && c == [])
      && (r.Obj? ==> ToMap(r.fields) == if c == [] then m else m + ToMap(OwnEntries(c[0])))
  {
    var c := Contribution(parsers, node);
    if c != [] {
      var target := if Truthy(acc) then acc.fields else [];
      AssignView(target, OwnEntries(c[0]));
    }
  }

  lemma MergeAllAppend(cs: seq<Value>, c: seq<Value>)
    requires |c| <= 1
    ensures MergeAll(cs + c) == if c == [] then MergeAll(cs) else MergeAll(cs) + ToMap(OwnEntries(c[0]))
  {
    if c == [] {
      assert cs + c == cs;
    } else {
      assert (cs + c)[..|cs + c| - 1] == cs;
    }
  }

  /** On success the record is absent exactly when no block contributed, and
      otherwise it is the shallow merge of the contributions in document
      order. */
  lemma {:induction false} GatherIsMerge(name: string, parsers: map<string, Parser>, nodes: seq<Node>)
    requires Gather(name, parsers, nodes).Ok?
    ensures Gather(name, parsers, nodes).value.Undefined? <==> Contributions(parsers, nodes) == []
    ensures Gather(name, parsers, nodes).value.Obj? ==>
      ToMap(Gather(name, parsers, nodes).value.fields) == MergeAll(Contributions(parsers, nodes))
    decreases |nodes|
  {
    if nodes != [] {
      var prefix, last := nodes[..|nodes| - 1], nodes[|nodes| - 1];
      GatherIsMerge(name, parsers, prefix);
      var acc := Gather(name, parsers, prefix).value;
      var cs := Contributions(parsers, prefix);
      StepIsMerge(name, parsers, acc, last, MergeAll(cs));
      MergeAllAppend(cs, Contribution(parsers, last));
    }
  }

  /** Every key of the merged record comes from some contribution. */
  lemma {:induction false} MergeAllKeys(cs: seq<Value>, k: string)
    ensures k in MergeAll(cs) <==> NamedBy(cs, k)
    decreases |cs|
  {
    if cs != [] {
      var prefix, last := cs[..|cs| - 1], ToMap(OwnEntries(cs[|cs| - 1]));
      MergeAllKeys(prefix, k);
      assert k in MergeAll(cs) <==> k in MergeAll(prefix) || k in last;
      SomeBlockSplit(cs, k);
    }
  }

  /** Some value of `cs` has `k` among its own keys. */
  predicate NamedBy(cs: seq<Value>, k: string) {
    exists j :: 0 <= j < |cs| && k in ToMap(OwnEntries(cs[j]))
  }

  /** A key is named by some value of `cs` iff by one before the last, or
      by the last. */
  lemma SomeBlockSplit(cs: seq<Value>, k: string)
    requires cs != []
    ensures NamedBy(cs, k) <==> NamedBy(cs[..|cs| - 1], k) || k in ToMap(OwnEntries(cs[|cs| - 1]))
  {
    var prefix := cs[..|cs| - 1];
    if NamedBy(prefix, k) {
      var j :| 0 <= j < |prefix| && k in ToMap(OwnEntries(prefix[j]));
      assert cs[j] == prefix[j];
    }
    if NamedBy(cs, k) {
      var j :| 0 <= j < |cs| && k in ToMap(OwnEntries(cs[j]));
      if j < |prefix| { assert prefix[j] == cs[j]; }
    }
  }

  /** Later blocks win: a key takes its value from the last contribution
      that has it, whatever earlier contributions said. */
  lemma {:induction false} LaterWins(cs: seq<Value>, j: nat, k: string)
    requires j < |cs| && k in ToMap(OwnEntries(cs[j]))
    requires forall l :: j < l < |cs| ==> k !in ToMap(OwnEntries(cs[l]))
    ensures k in MergeAll(cs) && MergeAll(cs)[k] == ToMap(OwnEntries(cs[j]))[k]
    decreases |cs|
  {
    if j < |cs| - 1 {
      var prefix := cs[..|cs| - 1];
      assert prefix[j] == cs[j];
      LaterWins(prefix, j, k);
    }
  }

  /** Blocks with no parser, or whose parser returns null or undefined, make
      no difference to the scan wherever they stand. */
  lemma {:induction false} IgnoredChildIrrelevant(name: string, parsers: map<string, Parser>,
                                                  before: seq<Node>, node: Node, after: seq<Node>)
    requires Ignored(parsers, node)
    ensures Gather(name, parsers, before + [node] + after) == Gather(name, parsers, before + after)
    decreases |after|
  {
    var all := before + [node] + after;
    if after == [] {
      assert all[..|all| - 1] == before;
      assert before + after == before;
    } else {
      var rest := after[..|after| - 1];
      IgnoredChildIrrelevant(name, parsers, before, node, rest);
      assert all[..|all| - 1] == before + [node] + rest;
      assert (before + after)[..|before + after| - 1] == before + rest;
    }
  }

  /** If no block decodes to anything, the record stays absent. */
  lemma {:induction false} NothingDecodedStaysAbsent(name: string, parsers: map<string, Parser>, nodes: seq<Node>)
    requires forall i :: 0 <= i < |nodes| ==> Ignored(parsers, nodes[i])
    ensures Gather(name, parsers, nodes) == Ok(Undefined)
    decreases |nodes|
  {
    if nodes != [] {
      NothingDecodedStaysAbsent(name, parsers, nodes[..|nodes| - 1]);
    }
  }

  /** The scan succeeds exactly when no child is rejected. */
  lemma {:induction false} GatherSucceedsIff(name: string, parsers: map<string, Parser>, nodes: seq<Node>)
    ensures Gather(name, parsers, nodes).Ok? <==> forall i :: 0 <= i < |nodes| ==> !Rejected(name, parsers, nodes[i])
    decreases |nodes|
  {
    if nodes != [] {
      var prefix := nodes[..|nodes| - 1];
      GatherSucceedsIff(name, parsers, prefix);
      forall i | 0 <= i < |prefix| ensures prefix[i] == nodes[i] { }
    }
  }

  /** Child `i` is the first rejected one. */
  predicate FirstRejectedAt(name: string, parsers: map<string, Parser>, nodes: seq<Node>, i: int) {
    && 0 <= i < |nodes|
    && Rejected(name, parsers, nodes[i])
    && forall j :: 0 <= j < i ==> !Rejected(name, parsers, nodes[j])
  }

  /** The first error ends the scan: once a prefix of the children fails,
      the whole scan fails with the same error. */
  lemma {:induction false} GatherErrorSticky(name: string, parsers: map<string, Parser>, nodes: seq<Node>, i: nat)
    requires i <= |nodes| && Gather(name, parsers, nodes[..i]).Err?
    ensures Gather(name, parsers, nodes) == Gather(name, parsers, nodes[..i])
    decreases |nodes|
  {
    if i < |nodes| {
      var prefix := nodes[..|nodes| - 1];
      assert prefix[..i] == nodes[..i];
      GatherErrorSticky(name, parsers, prefix, i);
    } else {
      assert nodes[..i] == nodes;
    }
  }

  /** A failed scan raises the error of the first rejected child, so the
      shape error carries that block's raw text and never occurs once a
      name is configured. */
  lemma {:induction false} GatherFailsAtFirstRejected(name: string, parsers: map<string, Parser>, nodes: seq<Node>)
    requires Gather(name, parsers, nodes).Err?
    ensures exists i ::
      FirstRejectedAt(name, parsers, nodes, i) && Gather(name, parsers, nodes).error == Rejection(name, parsers, nodes[i])
    decreases |nodes|
  {
    var prefix, last := nodes[..|nodes| - 1], nodes[|nodes| - 1];
    forall i | 0 <= i < |prefix| ensures prefix[i] == nodes[i] { }
    if Gather(name, parsers, prefix).Err? {
      GatherFailsAtFirstRejected(name, parsers, prefix);
      var i :| FirstRejectedAt(name, parsers, prefix, i)
        && Gather(name, parsers, prefix).error == Rejection(name, parsers, prefix[i]);
      assert FirstRejectedAt(name, parsers, nodes, i);
    } else {
      GatherSucceedsIff(name, parsers, prefix);
      assert FirstRejectedAt(name, parsers, nodes, |nodes| - 1);
    }
  }

  /** Merging never moves a key: the keys the record had after a prefix of
      the children keep their positions to the end of the scan. */
  lemma {:induction false} GatherKeepsKeyOrder(name: string, parsers: map<string, Parser>, nodes: seq<Node>, i: nat)
    requires i <= |nodes|
    requires Gather(name, parsers, nodes[..i]).Ok? && Gather(name, parsers, nodes[..i]).value.Obj?
    requires Gather(name, parsers, nodes).Ok?
    ensures Gather(name, parsers, nodes).value.Obj?
    ensures var before, after := Gather(name, parsers, nodes[..i]).value.fields, Gather(name, parsers, nodes).value.fields;
      |before| <= |after| && forall p :: 0 <= p < |before| ==> after[p].0 == before[p].0
    decreases |nodes|
  {
    if i < |nodes| {
      var prefix := nodes[..|nodes| - 1];
      assert prefix[..i] == nodes[..i];
      GatherKeepsKeyOrder(name, parsers, prefix, i);
      StepKeepsKeyOrder(name, parsers, Gather(name, parsers, prefix).value, nodes[|nodes| - 1]);
    } else {
      assert nodes[..i] == nodes;
    }
  }

  /** One step of the scan never moves a key of an object accumulator. */
  lemma StepKeepsKeyOrder(name: string, parsers: map<string, Parser>, acc: Value, node: Node)
    requires IsAccumulator(acc) && acc.Obj?
    requires Step(name, parsers, acc, node).Ok?
    ensures Step(name, parsers, acc, node).value.Obj?
    ensures var after := Step(name, parsers, acc, node).value.fields;
      |acc.fields| <= |after| && forall p :: 0 <= p < |acc.fields| ==> after[p].0 == acc.fields[p].0
  {
  }
}
