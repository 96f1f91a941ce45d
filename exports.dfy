/** Synthesis of the export node: one `const` declarator per own entry of
    the record, in entry order, each key checked to be an identifier name. */
module Exports {
  import opened Values
  import opened Errors
  import opened Ast

  /** Start of an identifier name, restricted to ASCII. */
  predicate IsIdStart(c: char) {
    'a' <= c <= 'z' || 'A' <= c <= 'Z' || c == '$' || c == '_'
  }

  /** Continuation of an identifier name, restricted to ASCII. */
  predicate IsIdPart(c: char) {
    IsIdStart(c) || '0' <= c <= '9'
  }

  /** An ECMAScript IdentifierName over ASCII: reserved words are not excluded. */
  predicate IsIdentifierName(s: string)
    ensures IsIdentifierName(s) ==> s != [] && !('0' <= s[0] <= '9')
  {
    |s| > 0 && IsIdStart(s[0]) && forall i :: 1 <= i < |s| ==> IsIdPart(s[i])
  }

  /** Entry `i` has the first key that is not an identifier name. */
  predicate FirstInvalidKeyAt(entries: seq<Entry>, i: int) {
    && 0 <= i < |entries|
    && !IsIdentifierName(entries[i].0)
    && forall j :: 0 <= j < i ==> IsIdentifierName(entries[j].0)
  }

  /** The `map` over the entries: a declarator per entry, in order, or the
      error naming the first key that is not an identifier name. */
  function Declare(entries: seq<Entry>): (r: Result<seq<Declarator>>)
    ensures r.Ok? <==> forall i :: 0 <= i < |entries| ==> IsIdentifierName(entries[i].0)
    ensures r.Ok? ==> |r.value| == |entries|
    ensures r.Ok? ==> forall i :: 0 <= i < |entries| ==>
      r.value[i].id == entries[i].0 && r.value[i].init == entries[i].1
    ensures r.Err? ==> exists i :: FirstInvalidKeyAt(entries, i) && r.error == InvalidKey(entries[i].0)
  {
    if entries == [] then Ok([])
    else if !IsIdentifierName(entries[0].0) then Err(InvalidKey(entries[0].0))
    else
      match Declare(entries[1..])
      case Err(e) =>
        assert exists i :: FirstInvalidKeyAt(entries, i) && e == InvalidKey(entries[i].0) by {
          var i :| FirstInvalidKeyAt(entries[1..], i) && e == InvalidKey(entries[1..][i].0);
          assert entries[1..][i] == entries[i + 1];
          forall j | 0 <= j < i + 1 ensures IsIdentifierName(entries[j].0) {
            if j > 0 { assert entries[1..][j - 1] == entries[j]; }
          }
          assert FirstInvalidKeyAt(entries, i + 1);
        }
        Err(e)
      case Ok(rest) => Ok([Declarator(entries[0].0, entries[0].1)] + rest)
  }

  /** `createExport(object)`: the export node for a record, over the entries
      `Object.entries` yields for it. */
  function CreateExport(v: Value): (r: Result<Node>)
    ensures r.Ok? <==> forall i :: 0 <= i < |OwnEntries(v)| ==> IsIdentifierName(OwnEntries(v)[i].0)
    ensures r.Ok? ==> r.value.Esm? && |r.value.declarations| == |OwnEntries(v)|
    ensures r.Ok? ==> forall i :: 0 <= i < |OwnEntries(v)| ==>
      r.value.declarations[i] == Declarator(OwnEntries(v)[i].0, OwnEntries(v)[i].1)
    ensures r.Err? ==> r.error.InvalidKey? && !IsIdentifierName(r.error.key)
  {
    match Declare(OwnEntries(v))
    case Ok(decls) => Ok(Esm(decls))
    case Err(e) => Err(e)
  }

  /** Reading an export back: the record its declarators denote. */
  function Reread(n: Node): Value
    requires n.Esm?
  {
    Obj(seq(|n.declarations|, i requires 0 <= i < |n.declarations| =>
      (n.declarations[i].id, n.declarations[i].init)))
  }

  /** Round trip: the export of an object, read back, is that object. */
  lemma ExportRoundTrip(fields: seq<Entry>)
    requires CreateExport(Obj(fields)).Ok?
    ensures Reread(CreateExport(Obj(fields)).value) == Obj(fields)
  {
  }

  /** Array and string records spread index keys, which start with a digit,
      so exporting a non-empty one always fails on key "0". */
  lemma IndexedRecordsRejected(v: Value)
    requires (v.Arr? && v.items != []) || (v.Str? && v.s != [])
    ensures CreateExport(v) == Err(InvalidKey(IndexKey(0)))
  {
  }

  /** A number or boolean record (a traveler may hand back a truthy one) has
      no entries: its export has no declarators. */
  lemma ScalarRecordExportsNothing(v: Value)
    requires v.Num? || v.Bool?
    ensures CreateExport(v) == Ok(Esm([]))
  {
  }
}
