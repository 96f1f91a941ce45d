/** Concrete documents run through the model, one per behaviour the plugin
    documents. The parsers are fixed stand-ins returning the decoded value. */
module Scenarios {
  import opened Values
  import opened Errors
  import opened Ast
  import opened Config
  import opened Exports
  import opened Extraction
  import opened Transformer

  function Returning(v: Value): Parser {
    (text: string) => Parsed(v)
  }

  /** A document of one block that decodes to an object yields that object. */
  lemma SingleBlock(name: string, parsers: map<string, Parser>, node: Node, data: Value)
    requires node.NodeType() in parsers && parsers[node.NodeType()](node.Literal()) == Parsed(data)
    requires data.Obj? && UniqueKeys(data.fields)
    ensures Gather(name, parsers, [node]) == Ok(data)
  {
    assert [node][..0] == [];
    assert [] + data.fields == data.fields;
  }

  /** A `yaml` block `{a: 1}` then a `toml` block `{a: 2, c: 3}` merge to
      `{a: 2, c: 3}`: the later block wins on `a`, and `a` keeps its place. */
  lemma TwoBlocksLaterWins()
    ensures
      var parsers := AllParsers(Returning(Obj([("a", Num(1))])), Returning(Obj([("a", Num(2)), ("c", Num(3))])), map[]);
      Gather("", parsers, [Leaf("yaml", "a: 1"), Leaf("paragraph", "text"), Leaf("toml", "a = 2\nc = 3")])
        == Ok(Obj([("a", Num(2)), ("c", Num(3))]))
  {
    var first, second := Obj([("a", Num(1))]), Obj([("a", Num(2)), ("c", Num(3))]);
    var parsers := AllParsers(Returning(first), Returning(second), map[]);
    var nodes := [Leaf("yaml", "a: 1"), Leaf("paragraph", "text"), Leaf("toml", "a = 2\nc = 3")];
    assert nodes[..2][..1] == [nodes[0]];
    assert nodes[..|nodes| - 1] == nodes[..2];
    assert parsers["yaml"]("a: 1") == Parsed(first);
    SingleBlock("", parsers, nodes[0], first);
    assert "paragraph" !in parsers;
    assert Gather("", parsers, nodes[..2]) == Ok(first);
    assert parsers["toml"]("a = 2\nc = 3") == Parsed(second);
    BlockMerges("", parsers, first, nodes[2], second);
    SecondBlockOverwrites();
  }

  /** A block decoding to an object, after an object record, is assigned
      onto it. */
  lemma BlockMerges(name: string, parsers: map<string, Parser>, acc: Value, node: Node, data: Value)
    requires acc.Obj? && UniqueKeys(acc.fields)
    requires node.NodeType() in parsers && parsers[node.NodeType()](node.Literal()) == Parsed(data)
    requires data.Obj?
    ensures Step(name, parsers, acc, node) == Ok(Obj(Assign(acc.fields, data.fields)))
  {
  }

  /** The `Object.assign` of the second block onto the first. */
  lemma SecondBlockOverwrites()
    ensures Assign([("a", Num(1))], [("a", Num(2)), ("c", Num(3))]) == [("a", Num(2)), ("c", Num(3))]
  {
    assert Put([("a", Num(1))], "a", Num(2)) == [("a", Num(2))];
    assert Put([("a", Num(2))], "c", Num(3)) == [("a", Num(2)), ("c", Num(3))];
  }

  /** A block decoding to a string fails without a name, carrying its raw
      text; with a name, `Object.assign` spreads the string's characters
      under index keys instead of nesting the string. */
  lemma StringBlock()
    ensures
      var parsers := AllParsers(Returning(Str("ab")), Returning(Null), map[]);
      && Gather("", parsers, [Leaf("yaml", "ab")]) == Err(NotAnObject("ab"))
      && Gather("meta", parsers, [Leaf("yaml", "ab")]) == Ok(Obj([("0", Str("a")), ("1", Str("b"))]))
  {
    var parsers := AllParsers(Returning(Str("ab")), Returning(Null), map[]);
    assert [Leaf("yaml", "ab")][..0] == [];
    assert IndexKey(0) == "0" && IndexKey(1) == "1";
    assert OwnEntries(Str("ab")) == [("0", Str("a")), ("1", Str("b"))];
    assert parsers["yaml"]("ab") == Parsed(Str("ab"));
    assert Put([], "0", Str("a")) == [("0", Str("a"))];
    assert Put([("0", Str("a"))], "1", Str("b")) == [("0", Str("a")), ("1", Str("b"))];
    assert Assign([], [("0", Str("a")), ("1", Str("b"))]) == [("0", Str("a")), ("1", Str("b"))];
  }

  /** A key that is not an identifier name fails at synthesis, after a
      successful scan. */
  lemma HyphenatedKeyRejected()
    ensures
      var parsers := AllParsers(Returning(Obj([("title", Str("x")), ("invalid-key", Num(1))])), Returning(Null), map[]);
      var p := Plugin("", parsers, MakeTraveler(Unset));
      && Gather("", parsers, [Leaf("yaml", "")]).Ok?
      && Run(p, State([Leaf("yaml", "")], map[])) == Err(InvalidKey("invalid-key"))
  {
    var parsers := AllParsers(Returning(Obj([("title", Str("x")), ("invalid-key", Num(1))])), Returning(Null), map[]);
    var record := Obj([("title", Str("x")), ("invalid-key", Num(1))]);
    assert parsers["yaml"]("") == Parsed(record);
    SingleBlock("", parsers, Leaf("yaml", ""), record);
    HyphenatedKeyFailsExport(record);
  }

  /** `createExport` on `{title: 'x', 'invalid-key': 1}` names the second key. */
  lemma HyphenatedKeyFailsExport(record: Value)
    requires record == Obj([("title", Str("x")), ("invalid-key", Num(1))])
    ensures CreateExport(record) == Err(InvalidKey("invalid-key"))
  {
    assert IsIdentifierName("title");
    assert !IsIdentifierName("invalid-key") by { assert !IsIdPart("invalid-key"[7]); }
    assert Declare(record.fields) == Err(InvalidKey("invalid-key"));
  }
}
