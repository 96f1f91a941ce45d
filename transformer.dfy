/** The transformer the plugin returns: check the name, scan the children,
    hand the record to the traveler, and route it as the action says. */
module Transformer {
  import opened Values
  import opened Errors
  import opened Ast
  import opened Config
  import opened Exports
  import opened Extraction

  /** The document tree `ast`; the transformer may splice into `children`. */
  class Tree {
    var children: seq<Node>

    constructor (children: seq<Node>)
      ensures this.children == children
    {
      this.children := children;
    }
  }

  /** The compiled file; only its `data` record is written. */
  class VFile {
    var data: map<string, Value>

    constructor (data: map<string, Value>)
      ensures this.data == data
    {
      this.data := data;
    }
  }

  /** What a transform can change: the children and the file's data. */
  datatype State = State(children: seq<Node>, data: map<string, Value>)

  /** The children after a transform: the same, or one export node put in
      front of them with nothing removed or reordered. */
  predicate SameOrExportInFront(before: seq<Node>, after: seq<Node>) {
    after == before || (|after| == |before| + 1 && after[0].Esm? && after[1..] == before)
  }

  /** The `switch (action)` on the traveler's answer. */
  function Route(name: string, action: string, data: Value, s: State): (r: Result<State>)
    ensures action != MdxExport ==> r.Ok?
    ensures action == MdxExport && r.Ok? ==>
      r.value.data == s.data && SameOrExportInFront(s.children, r.value.children)
    ensures action == VfileData ==> r == Ok(State(s.children, s.data[EffectiveName(name) := data]))
    ensures action != MdxExport && action != VfileData ==> r == Ok(s)
    ensures r.Err? ==> r.error.InvalidKey?
  {
    if action == MdxExport then
      var record := if name != "" then Obj([(name, data)]) else data;
      if !Truthy(record) then Ok(s)
      else
        match CreateExport(record)
        case Err(e) => Err(e)
        case Ok(node) => Ok(State([node] + s.children, s.data))
    else if action == VfileData then
      Ok(State(s.children, s.data[EffectiveName(name) := data]))
    else
      Ok(s)
  }

  /** One transform of one document, as a function of what it starts from.
      A success removes no child and reorders nothing: it either leaves the
      children alone or puts one export node in front of them, and it writes
      at most the one data key `name || 'frontmatter'`. */
  function Run(p: Plugin, s: State): (r: Result<State>)
    ensures r.Ok? ==> SameOrExportInFront(s.children, r.value.children)
    ensures r.Ok? ==> r.value.data == s.data || r.value.children == s.children
    ensures r.Ok? ==> forall k :: k in s.data && k != EffectiveName(p.name) ==> k in r.value.data && r.value.data[k] == s.data[k]
    ensures r.Ok? ==> r.value.data.Keys <= s.data.Keys + {EffectiveName(p.name)}
  {
    if p.name != "" && !IsIdentifierName(p.name) then Err(InvalidName(p.name))
    else
      match Gather(p.name, p.parsers, s.children)
      case Err(e) => Err(e)
      case Ok(gathered) =>
        var step := p.traveler(EffectiveName(p.name), gathered);
        Route(p.name, step.0, step.1, s)
  }

  /** The transformer: on success the tree and the file's data are what
      `Run` says; on any error neither has changed. */
  method Transform(p: Plugin, tree: Tree, file: VFile) returns (r: Result<()>)
    modifies tree, file
    ensures var expected := Run(p, State(old(tree.children), old(file.data)));
      match expected
      case Ok(s) => r == Ok(()) && tree.children == s.children && file.data == s.data
      case Err(e) => r == Err(e) && tree.children == old(tree.children) && file.data == old(file.data)
  {
    if p.name != "" && !IsIdentifierName(p.name) {
      return Err(InvalidName(p.name));
    }
    var gathered := Extract(p.name, p.parsers, tree.children);
    if gathered.Err? {
      return Err(gathered.error);
    }
    var step := p.traveler(EffectiveName(p.name), gathered.value);
    var action, data := step.0, step.1;
    if action == MdxExport {
      if p.name != "" {
        data := Obj([(p.name, data)]);
      }
      if Truthy(data) {
        var node := CreateExport(data);
        if node.Err? {
          return Err(node.error);
        }
        tree.children := [node.value] + tree.children;
      }
    } else if action == VfileData {
      file.data := file.data[EffectiveName(p.name) := data];
    }
    r := Ok(());
  }

  // ----- Properties of a transform -----

  /** The gathered record and the traveler's answer for a document whose
      name check and scan succeed. */
  predicate Routed(p: Plugin, s: State, action: string, data: Value) {
    && (p.name == "" || IsIdentifierName(p.name))
    && Gather(p.name, p.parsers, s.children).Ok?
    && p.traveler(EffectiveName(p.name), Gather(p.name, p.parsers, s.children).value) == (action, data)
  }

  /** An invalid name fails before any child is decoded: the outcome does
      not depend on the document at all. */
  lemma InvalidNameFailsFirst(p: Plugin, s: State, s': State)
    requires p.name != "" && !IsIdentifierName(p.name)
    ensures Run(p, s) == Run(p, s') == Err(InvalidName(p.name))
  {
  }

  /** `mdx-export` with a name: the record is wrapped under the name after
      the traveler ran, so exactly one declarator for the name is always
      inserted in front of the unchanged children. */
  lemma NamedExportAlwaysInserted(p: Plugin, s: State, data: Value)
    requires p.name != "" && Routed(p, s, MdxExport, data)
    ensures Run(p, s) == Ok(State([Esm([Declarator(p.name, data)])] + s.children, s.data))
  {
    var record := Obj([(p.name, data)]);
    assert OwnEntries(record) == [(p.name, data)];
    var node := CreateExport(record).value;
    assert node.declarations == [Declarator(p.name, data)];
  }

  /** `mdx-export` without a name: a falsy record inserts nothing; a truthy
      one becomes the new first child, one declarator per entry in entry
      order, followed by the old children unchanged; the file's data is
      never touched. */
  lemma UnnamedExport(p: Plugin, s: State, data: Value)
    requires p.name == "" && Routed(p, s, MdxExport, data)
    ensures !Truthy(data) ==> Run(p, s) == Ok(s)
    ensures Truthy(data) ==>
      (Run(p, s).Ok? <==> forall i :: 0 <= i < |OwnEntries(data)| ==> IsIdentifierName(OwnEntries(data)[i].0))
    ensures Truthy(data) && Run(p, s).Ok? ==>
      var out := Run(p, s).value;
      && out.data == s.data
      && |out.children| == |s.children| + 1
      && out.children[1..] == s.children
      && out.children[0] == Esm(seq(|OwnEntries(data)|, i requires 0 <= i < |OwnEntries(data)| =>
           Declarator(OwnEntries(data)[i].0, OwnEntries(data)[i].1)))
    ensures Run(p, s).Err? ==>
      exists i :: FirstInvalidKeyAt(OwnEntries(data), i) && Run(p, s).error == InvalidKey(OwnEntries(data)[i].0)
  {
  }

  /** `vfile-data`: the traveler's data is stored under `name ||
      'frontmatter'` and the tree is left alone. */
  lemma VfileDataWrites(p: Plugin, s: State, data: Value)
    requires Routed(p, s, VfileData, data)
    ensures Run(p, s) == Ok(State(s.children, s.data[EffectiveName(p.name) := data]))
  {
  }

  /** `skip` and every other action change nothing. */
  lemma OtherActionsChangeNothing(p: Plugin, s: State, action: string, data: Value)
    requires Routed(p, s, action, data) && action != MdxExport && action != VfileData
    ensures Run(p, s) == Ok(s)
  {
  }

  /** A static action hands the gathered record on unchanged, whatever the
      action is. */
  lemma StaticActionPassesRecord(opts: Options, yaml: Parser, toml: Parser, s: State)
    requires opts.action.Static?
    requires var p := Configure(opts, yaml, toml);
      (p.name == "" || IsIdentifierName(p.name)) && Gather(p.name, p.parsers, s.children).Ok?
    ensures var p := Configure(opts, yaml, toml);
      Routed(p, s, opts.action.tag, Gather(p.name, p.parsers, s.children).value)
  {
  }

  /** A static `skip` never changes the tree or the file's data, whatever
      the blocks decode to. */
  lemma StaticSkipNeverMutates(opts: Options, yaml: Parser, toml: Parser, s: State)
    requires opts.action == Static(Skip)
    ensures Run(Configure(opts, yaml, toml), s).Ok? ==> Run(Configure(opts, yaml, toml), s) == Ok(s)
  {
  }

  /** A document without front matter under the default options (no name,
      no action) is left exactly as it was. */
  lemma NoFrontmatterNoChange(opts: Options, yaml: Parser, toml: Parser, s: State)
    requires opts.name == "" && opts.action == Unset
    requires forall i :: 0 <= i < |s.children| ==> Ignored(Configure(opts, yaml, toml).parsers, s.children[i])
    ensures Run(Configure(opts, yaml, toml), s) == Ok(s)
  {
    var p := Configure(opts, yaml, toml);
    NothingDecodedStaysAbsent(p.name, p.parsers, s.children);
  }
}
