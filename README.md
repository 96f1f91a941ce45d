# remark-mdx-frontmatter, modelled in Dafny

This project models the transformer of the remark plugin `remark-mdx-frontmatter`
(`index.ts`). The transformer runs once per MDX document. It:

1. checks the configured export `name`;
2. scans the document's top-level children once, in order, and decodes every
   child whose `type` has a registered parser (`yaml`, `toml` or one the caller
   adds);
3. shallow-merges the decoded values into one record, later blocks winning;
4. hands `(name || 'frontmatter', record)` to a traveler;
5. routes the traveler's answer:
   - `mdx-export` inserts an ESM export node at the front of the tree;
   - `vfile-data` stores the record in `file.data`;
   - `skip` or any other answer does nothing.

Modules, one per part of the program:

- `Values` (values.dfy): JavaScript values as the parsers return them. It also
  holds JavaScript truthiness, `typeof … === 'object'`, and the own entries that
  `Object.entries` and `Object.assign` see. The shallow overwrite is `Put` and
  `Assign`; `ToMap` is its dictionary view.
- `Errors` (errors.dfy): the four errors the transformer can throw, as a `Result`.
- `Ast` (ast.dfy): document nodes and export declarators.
- `Exports` (exports.dfy): `createExport` and the identifier-name check.
- `Config` (config.dfy): the parser registry (`allParsers`) and the `traveler`
  built from the `action` option.
- `Extraction` (extraction.dfy): the child scan. `Gather` is the pure
  specification. `Extract` is the imperative loop, proved equal to it. A
  reference view (`Contributions`, `MergeAll`) states the merge.
- `Transformer` (transformer.dfy): the classes `Tree` (the tree's `children`) and
  `VFile` (the file's `data`). `Run` specifies a whole transform as a function.
  The method `Transform` mutates the two objects and is proved to match `Run`. It
  also changes nothing when the transform fails.
- `Scenarios` (scenarios.dfy): concrete documents run through the model.

An unset `name` is written `""`. Every use of `name` in the source is a
truthiness test, so `undefined` and `''` behave the same.

Three behaviours of the code are worth knowing:

- With a `name` set, a decoded value that is not an object still goes through
  `Object.assign` (index.ts:151). A string block is spread into index keys `"0"`,
  `"1"`, …, and a number or boolean block yields an empty object.
  `Scenarios.StringBlock` shows this.
- The `{[name]: record}` wrap happens only under `mdx-export`, after the traveler
  has run (index.ts:158-159). `vfile-data` stores the unwrapped record.
- Record keys and the configured name are checked only as IdentifierName
  (index.ts:80, 127), so reserved words such as `default` pass.

## Model

| member | source | states |
|---|---|---|
| Values.Put | index.ts:151 | Writing one property keeps every existing key in place. Keys other than the written one keep their values. A new key goes at the end. Keys stay unique. |
| Values.PutView | index.ts:151 | As a dictionary, writing a property is a map update. |
| Values.Assign | index.ts:151 | `Object.assign` keeps the target's keys in their positions and adds at most one key per source entry. Keys stay unique. When no key of the source is already in the target, the source's keys follow the target's in the source's order, so a single block's keys keep their written order. |
| Values.AssignView | index.ts:151 | As dictionaries, `Object.assign` is a shallow overwrite: `target + source`, so the source wins on every shared key. |
| Values.AssignKeepsUntouched | index.ts:151 | A target key that the source does not name keeps its position and its value. |
| Values.OwnEntries | index.ts:79 | The entries `Object.entries` and `Object.assign` (line 151) iterate: an object's fields in order; an array's elements or a string's characters under their index keys, in index order; nothing for any other primitive. An array or string never yields the same key twice. |
| Values.IndexKey | index.ts:79 | The key of an array or string index is a non-empty decimal numeral. It starts with a digit. |
| Values.IndexKeyInjective | index.ts:79 | Two indices with the same key are the same index. |
| Exports.Declare | index.ts:79-92 | Succeeds exactly when every key is an identifier name. On success there is one declarator per entry, in entry order, with `id` equal to the key and `init` equal to the value. On failure the error names the first invalid key. |
| Exports.CreateExport | index.ts:64-99 | The export node of a record has one declarator per `Object.entries` entry, in order. It fails exactly when some key is not an identifier name, and then no node is produced. |
| Exports.ExportRoundTrip | index.ts:79-92 | Reading an object's export back gives the same object. |
| Exports.IndexedRecordsRejected | index.ts:79-86 | A non-empty array or string record always fails synthesis on key `"0"`. |
| Exports.ScalarRecordExportsNothing | index.ts:79 | A number or boolean record has no entries, so its export has no declarators. A traveler can hand back a truthy one of these. |
| Exports.IsIdentifierName | index.ts:80 | An identifier name is non-empty and never starts with a digit. This check applies to record keys (line 80) and to the configured name (line 127). |
| Config.AllParsers | index.ts:114-118 | The registry's keys are `yaml`, `toml` and the caller's keys. A caller entry wins on a collision. A built-in survives unless the caller overrides it. |
| Config.EffectiveName | index.ts:154 | The key used for the traveler and for `file.data` is never empty. It is the name whenever one is set, and `frontmatter` otherwise. |
| Config.MakeTraveler | index.ts:119-122 | A static action gives `(action, data)` for every call, so the data passes through unchanged. An unset action gives `('mdx-export', data)`. A caller's traveler is used as is. |
| Config.Configure | index.ts:109-123 | The configured plugin keeps the name. Its registry holds `yaml`, `toml` and the caller's parsers, and the caller's win. Unless the caller overrides them, `yaml` and `toml` map to the built-in parsers. A caller's traveler is kept as given. A static action becomes a traveler that passes the data through, and an unset one means `mdx-export`. |
| Config.UnsetIsMdxExport | index.ts:112 | An unset action behaves like a static `mdx-export`. |
| Extraction.Step | index.ts:135-151 | One loop iteration keeps the accumulator either absent or an object with unique keys. |
| Extraction.Gather | index.ts:125-152 | A successful scan yields an absent record or an object with unique keys. |
| Extraction.Extract | index.ts:135-152 | The imperative loop over the children returns exactly what `Gather` specifies. This covers the first error it meets. |
| Extraction.StepIsMerge | index.ts:143-151 | On the dictionary view, one iteration lays a contributing block over the record. Any other child leaves the record as it was. |
| Extraction.GatherIsMerge | index.ts:125-151 | On success the record is absent exactly when no block contributed. Otherwise it is the shallow merge of the decoded blocks in document order. |
| Extraction.MergeAllKeys | index.ts:151 | A key is in the merged record exactly when some decoded block has it. |
| Extraction.LaterWins | index.ts:151 | A key's merged value comes from the last block that has it. Earlier keys that no later block names survive. |
| Extraction.IgnoredChildIrrelevant | index.ts:135-146 | A child with no parser, or whose parser returns null or undefined, can be removed without changing the outcome of the scan. |
| Extraction.NothingDecodedStaysAbsent | index.ts:125-146 | If no block decodes to anything, the record stays `undefined`. |
| Extraction.GatherSucceedsIff | index.ts:143-149 | The scan succeeds exactly when no block throws, and no block decodes to a non-object while the name is unset. |
| Extraction.GatherErrorSticky | index.ts:143-149 | Once a prefix of the children fails, the whole scan fails with the same error. |
| Extraction.GatherFailsAtFirstRejected | index.ts:143-149 | A failed scan raises the error of the first rejected block. That is the parser's error, or the shape error carrying the block's raw text. A shape error can only happen when no name is set. |
| Extraction.GatherKeepsKeyOrder | index.ts:151 | Merging never moves a key. Keys present after a prefix of the children keep their positions to the end. |
| Transformer.Route | index.ts:157-170 | The three outcomes exclude each other. `mdx-export` leaves `file.data` alone and either keeps the children or puts one export node in front. `vfile-data` writes the data under the effective name and leaves the tree alone. Any other action changes nothing. Only `mdx-export` can fail, and only on a key. |
| Transformer.Run | index.ts:124-171 | A successful transform removes and reorders no child. It either leaves the children alone or puts one export node in front, and it does not both insert and write. It writes no data key other than the effective name, and every other key keeps its value. |
| Transformer.Transform | index.ts:124-171 | On success the tree's children and the file's data are exactly what `Run` specifies. On any error, neither changes. |
| Transformer.InvalidNameFailsFirst | index.ts:127-133 | An invalid name fails with its own error. The outcome does not depend on the document, so no child is decoded. |
| Transformer.NamedExportAlwaysInserted | index.ts:158-162 | With a name and `mdx-export`, one declarator `name = data` is always inserted as the first child. The old children follow unchanged and `file.data` is untouched. |
| Transformer.UnnamedExport | index.ts:158-162 | With no name and `mdx-export`, a falsy record changes nothing. A truthy record succeeds exactly when all its keys are identifier names. It then becomes the first child, with one declarator per entry in entry order, followed by the old children, and `file.data` is untouched. Otherwise the error names the first invalid key. |
| Transformer.VfileDataWrites | index.ts:164-166 | With `vfile-data`, the traveler's data is stored under the name, or under `frontmatter` when none is set. The tree is unchanged. |
| Transformer.OtherActionsChangeNothing | index.ts:167-169 | `skip` and any unknown action leave the tree and `file.data` as they were. |
| Transformer.StaticActionPassesRecord | index.ts:119-122 | With a static action, the router receives that action and the gathered record unchanged. |
| Transformer.StaticSkipNeverMutates | index.ts:167-169 | A static `skip` never changes the tree or `file.data`. |
| Transformer.NoFrontmatterNoChange | index.ts:125-162 | Under default options, a document with no decodable block is left exactly as it was. |
| Scenarios.TwoBlocksLaterWins | index.ts:135-152 | `{a: 1}` then `{a: 2, c: 3}`, with a non-block child between them, merge to `{a: 2, c: 3}`. |
| Scenarios.StringBlock | index.ts:147-151 | A string block fails without a name, with the raw text in the error. With a name it is spread into index keys. |
| Scenarios.HyphenatedKeyRejected | index.ts:79-86 | A record key `invalid-key` passes the scan, then fails synthesis with an error naming the key. |

## Left out

- The YAML and TOML parsers are foreign libraries. They are parameters
  (`yaml`, `toml`) of `Config.AllParsers` and `Config.Configure`. A parser
  either returns a value or throws with a message.
- `valueToEstree` is left out. A declarator carries the value its initializer
  would be built from.
- Exports.IsIdentifierName: checks ASCII only. It does not model the Unicode
  ID_Start/ID_Continue tables of `estree-util-is-identifier-name`.
- ESTree boilerplate (`Program`, `ExportNamedDeclaration`, `sourceType`,
  `specifiers`, `data.estree`) is left out. The export node is its list of
  declarators.
- The unified `Plugin` plumbing is left out. The `file` object is modelled only
  through its `data` record.
- Numbers are integers. Floating point, `NaN` and `-0` (both falsy) are not
  modelled.
- JavaScript puts integer-like keys before other keys in `Object.entries` and
  `Object.assign`. The model keeps plain insertion order for all keys.
- Getters, symbols, prototypes and the special key `__proto__` are left out.
  Parsers return plain data.
- A caller's traveler is a total function. It cannot throw, and it cannot mutate
  the object it receives.
- A truthy `action` that is neither a string nor a function, and a caller parser
  entry that is not a function, are left out. In the source both throw a
  `TypeError` when called.
- Exports.CreateExport: the model is total on null and undefined, where
  `Object.entries` throws a `TypeError` in `createExport`. The transformer never
  passes such a record, because it guards with `if (dataGather)` (index.ts:160).
- Strings are sequences of Unicode scalar values, not UTF-16 code units. A
  string with an astral character (an emoji, say) that is spread into index keys
  gets one key per scalar value here, where JavaScript gives one per code unit.
- Every top-level child is modelled with a text `value`. Parent nodes have none
  in the source, and their `undefined` would go to the parser.
