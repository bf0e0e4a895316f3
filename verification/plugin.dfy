/** The plugin's `transform` hook, end to end: gate, parser options, Babel,
    marker tests, wrapping. Babel (`transformSync` with the prefresh Babel
    plugin) and the include/exclude filter are parameters. */
module Plugin {
  import opened Results
  import opened Text
  import opened Eligibility
  import opened ParserPlugins
  import opened Markers
  import opened Assembly

  /** The plugin options the model reads; `include`/`exclude` reach the model
      only as the filter built from them. */
  datatype Options = Options(parserPlugins: Option<seq<Entry>>)

  /** Babel's `transformSync(code, { parserOpts: { plugins }, sourceFileName: id, ... })`:
      the rewritten code and map, or the error it throws. */
  type Babel<M> = (string, string, seq<Entry>) -> Result<Instrumented<M>>

  /** `transform(code, id, ssr)`. An error thrown by Babel propagates. */
  function Transform<M>(st: PluginState, opts: Options, filter: string -> bool, babel: Babel<M>,
                        code: string, id: string, ssr: bool): (r: Result<Outcome<M>>)
    ensures r == Ok(Skip) <==> !PassesGate(st, id, ssr, filter)
    ensures var babelled := babel(code, id, Build(id, opts.parserPlugins));
            PassesGate(st, id, ssr, filter) && babelled.Err? ==> r == Err(babelled.error)
    ensures var babelled := babel(code, id, Build(id, opts.parserPlugins));
            PassesGate(st, id, ssr, filter) && babelled.Ok? ==> r == Ok(Assemble(code, babelled.value, id))
  {
    if !PassesGate(st, id, ssr, filter) then
      Ok(Skip)
    else
      match babel(code, id, Build(id, opts.parserPlugins))
      case Err(e) => Err(e)
      case Ok(inst) => Ok(Assemble(code, inst, id))
  }

  /** After a production build is configured every module is skipped. */
  lemma ProductionSkipsEverything<M>(config: ResolvedConfig, opts: Options, filter: string -> bool,
                                     babel: Babel<M>, code: string, id: string, ssr: bool)
    requires config.command == "build" || config.isProduction
    ensures Transform(ConfigResolved(config), opts, filter, babel, code, id, ssr) == Ok(Skip)
  {
  }

  /** In the dev server a module is skipped exactly when the gate's own tests
      refuse it; the mode flag plays no part. */
  lemma DevServerSkipsOnlyIneligible<M>(config: ResolvedConfig, opts: Options, filter: string -> bool,
                                        babel: Babel<M>, code: string, id: string, ssr: bool)
    requires config.command != "build" && !config.isProduction
    ensures Transform(ConfigResolved(config), opts, filter, babel, code, id, ssr) == Ok(Skip) <==>
              ssr || !filter(id) || !EndsWithOneOf(id, ScriptSuffixes)
              || Contains(id, "node_modules") || Contains(id, "?worker")
  {
  }

  /** Before the configuration is resolved the mode flag skips nothing. */
  lemma UnconfiguredSkipsOnlyIneligible<M>(opts: Options, filter: string -> bool, babel: Babel<M>,
                                           code: string, id: string, ssr: bool)
    ensures Transform(Initial, opts, filter, babel, code, id, ssr) == Ok(Skip) <==>
              ssr || !filter(id) || !EndsWithOneOf(id, ScriptSuffixes)
              || Contains(id, "node_modules") || Contains(id, "?worker")
  {
  }

  /** Server-side rendering, a dependency, a worker, a filtered-out id or a
      non-script extension each skip the module without calling Babel. */
  lemma RefusedIdsSkipped<M>(st: PluginState, opts: Options, filter: string -> bool, babel: Babel<M>,
                             code: string, id: string, ssr: bool)
    requires ssr || Contains(id, "node_modules") || Contains(id, "?worker") || !filter(id)
             || !EndsWithOneOf(id, ScriptSuffixes)
    ensures Transform(st, opts, filter, babel, code, id, ssr) == Ok(Skip)
  {
  }

  /** A module whose instrumentation inserted no call site comes back as the
      source text itself, whatever Babel produced. */
  lemma NoMarkersKeepsSource<M>(st: PluginState, opts: Options, filter: string -> bool, babel: Babel<M>,
                                code: string, id: string, ssr: bool)
    requires PassesGate(st, id, ssr, filter)
    requires babel(code, id, Build(id, opts.parserPlugins)).Ok?
    requires Classify(babel(code, id, Build(id, opts.parserPlugins)).value.code) == NoMarkers
    ensures Transform(st, opts, filter, babel, code, id, ssr) == Ok(Unchanged(code))
  {
  }

  /** Signature call sites only: the prelude, then the body, no epilogue, and
      Babel's map. */
  lemma SignatureOnlyWraps<M>(st: PluginState, opts: Options, filter: string -> bool, babel: Babel<M>,
                              code: string, id: string, ssr: bool)
    requires PassesGate(st, id, ssr, filter)
    requires babel(code, id, Build(id, opts.parserPlugins)).Ok?
    requires Classify(babel(code, id, Build(id, opts.parserPlugins)).value.code) == SignatureOnly
    ensures var inst := babel(code, id, Build(id, opts.parserPlugins)).value;
            Transform(st, opts, filter, babel, code, id, ssr) == Ok(Emit(Prelude(id) + inst.code, inst.sourceMap))
  {
  }

  /** A registration call site: prelude, body, epilogue, and Babel's map. */
  lemma RegistrationWrapsFully<M>(st: PluginState, opts: Options, filter: string -> bool, babel: Babel<M>,
                                  code: string, id: string, ssr: bool)
    requires PassesGate(st, id, ssr, filter)
    requires babel(code, id, Build(id, opts.parserPlugins)).Ok?
    requires Classify(babel(code, id, Build(id, opts.parserPlugins)).value.code) == Full
    ensures var inst := babel(code, id, Build(id, opts.parserPlugins)).value;
            Transform(st, opts, filter, babel, code, id, ssr) == Ok(Emit(Prelude(id) + inst.code + Epilogue, inst.sourceMap))
  {
  }
}
