/** What the plugin builds once from its options: the effective parser
    registry and the traveler that decides what happens to the data. */
module Config {
  import opened Values

  /** What a parser does with a block's text: return a value (possibly null
      or undefined) or throw. */
  datatype Decoded = Parsed(value: Value) | Threw(message: string)

  type Parser = string -> Decoded

  /** `(name, data) -> [action, newData]`. */
  type Traveler = (string, Value) -> (string, Value)

  const MdxExport := "mdx-export"
  const VfileData := "vfile-data"
  const Skip := "skip"
  const DefaultName := "frontmatter"

  /** The `action` option: left unset (or a falsy non-string), a static
      action string, or a caller's traveler function. */
  datatype ActionOption = Unset | Static(tag: string) | Custom(traveler: Traveler)

  /** The options; `name == ""` stands for an unset name, which every use of
      it treats the same way. */
  datatype Options = Options(name: string, parsers: map<string, Parser>, action: ActionOption)

  /** The configured transformer. */
  datatype Plugin = Plugin(name: string, parsers: map<string, Parser>, traveler: Traveler)

  /** `{ yaml: parseYaml, toml: parseToml, ...parsers }`: the built-ins,
      overlaid by the caller's entries. */
  function AllParsers(yaml: Parser, toml: Parser, overrides: map<string, Parser>): (r: map<string, Parser>)
    ensures r.Keys == {"yaml", "toml"} + overrides.Keys
    ensures forall k :: k in overrides ==> r[k] == overrides[k]
    ensures "yaml" !in overrides ==> r["yaml"] == yaml
    ensures "toml" !in overrides ==> r["toml"] == toml
  {
    map["yaml" := yaml, "toml" := toml] + overrides
  }

  /** `name || defaultName`. */
  function EffectiveName(name: string): (r: string)
    ensures r != ""
    ensures name != "" ==> r == name
    ensures name == "" ==> r == DefaultName
  {
    if name != "" then name else DefaultName
  }

  /** The `action` option made into a uniform traveler: a static action
      passes the data through unchanged, an unset one means `mdx-export`. */
  function MakeTraveler(action: ActionOption): (t: Traveler)
    ensures action.Static? ==> forall n, d :: t(n, d) == (action.tag, d)
    ensures action.Unset? ==> forall n, d :: t(n, d) == (MdxExport, d)
    ensures action.Custom? ==> t == action.traveler
  {
    match action
    case Static(tag) => (n: string, d: Value) => (tag, d)
    case Unset => (n: string, d: Value) => (MdxExport, d)
    case Custom(f) => f
  }

  /** The plugin: options resolved once, before any document. */
  function Configure(opts: Options, yaml: Parser, toml: Parser): (p: Plugin)
    ensures p.name == opts.name
    ensures p.parsers.Keys == {"yaml", "toml"} + opts.parsers.Keys
    ensures forall k :: k in opts.parsers ==> p.parsers[k] == opts.parsers[k]
    ensures "yaml" !in opts.parsers ==> p.parsers["yaml"] == yaml
    ensures "toml" !in opts.parsers ==> p.parsers["toml"] == toml
    ensures opts.action.Custom? ==> p.traveler == opts.action.traveler
    ensures opts.action.Static? ==> forall n, d :: p.traveler(n, d) == (opts.action.tag, d)
    ensures opts.action.Unset? ==> forall n, d :: p.traveler(n, d) == (MdxExport, d)
  {
    Plugin(opts.name, AllParsers(yaml, toml, opts.parsers), MakeTraveler(opts.action))
  }

  /** An unset action and the static `mdx-export` behave alike. */
  lemma UnsetIsMdxExport(n: string, d: Value)
    ensures MakeTraveler(Unset)(n, d) == MakeTraveler(Static(MdxExport))(n, d)
  {
  }
}
