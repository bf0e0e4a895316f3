# prefresh Vite plugin — a Dafny model

This project models the Vite plugin of prefresh (Preact hot module reloading),
`packages/vite/src/index.js`. For every module the bundler serves, the plugin:

- decides whether to instrument the module at all: the skip flag set in
  `configResolved`, the extension regex, the `node_modules` and `?worker`
  tests, the include/exclude filter and the `ssr` flag;
- builds the list of Babel parser plugins;
- runs Babel with the prefresh Babel plugin;
- tests the rewritten code for `$RefreshReg$(` and `$RefreshSig$(` call sites;
- returns one of three things: the source untouched, the prelude plus the
  rewritten body, or the prelude plus the body plus the epilogue.

It also models what the emitted prelude and epilogue do at run time. That covers:

- saving, installing and restoring the global `$RefreshReg$`/`$RefreshSig$` hooks;
- the registration forwarder and its composite key `fileId + " " + localId`;
- the signature closure's `savedType`/`status` state machine;
- the `import.meta.hot.accept` handler, which reloads the page when
  `flushUpdates` throws.

Modules, one per concern:

- `Results`: `Option` and `Result`, the latter for the error Babel may throw.
- `Text`: suffix tests, a reference `Contains` and the computed `Includes`.
- `JsonString`: `JSON.stringify` of a string, and a reader for the
  double-quoted JavaScript literal it produces.
- `Eligibility`: `configResolved` and the gate at the top of `transform`.
- `ParserPlugins`: the `parserPlugins` list and `filter(Boolean)`.
- `Markers`: the two marker tests as a three-way classification.
- `Assembly`: the prelude, the epilogue and the three return shapes.
- `Plugin`: `transform` end to end.
- `Runtime`: the behaviour of the emitted code in the browser.

Several collaborators are parameters, not code:

- Babel (`transformSync` with the prefresh Babel plugin) is a function
  `(code, id, parserPlugins) -> Result<Instrumented<M>>`. The source map type
  `M` is opaque and is passed through unchanged.
- The `createFilter(include, exclude)` predicate is a function `string -> bool`.
- The registry's `sign` is a function parameter.
- `register` calls and `flushUpdates` outcomes appear as recorded calls and
  as given outcomes.

## Model

| member | source | states |
|---|---|---|
| Eligibility.ConfigResolved | packages/vite/src/index.js:12-14 | the skip flag is set exactly for `command === 'build'` or a production config; any other configuration leaves the plugin in its initial state (the consequences for `transform` are `Plugin.ProductionSkipsEverything` and `Plugin.DevServerSkipsOnlyIneligible`) |
| Text.Includes | packages/vite/src/index.js:19-20 | `id.includes(pat)` (and a regex made of one literal) is true exactly when some position of the text holds the pattern |
| Eligibility.MatchesScriptPattern | packages/vite/src/index.js:18 | `/\.(t\|j)sx?$/` holds exactly when the id ends, case-sensitively, with `.js`, `.jsx`, `.ts` or `.tsx` |
| Eligibility.MatchesTypeScriptPattern | packages/vite/src/index.js:31 | `/\.tsx?$/` holds exactly when the id ends with `.ts` or `.tsx` |
| Eligibility.NearMissExtensionsRefused | packages/vite/src/index.js:18 | ids ending `.mjs`, `.JSX`, `.tsxx` or `.cts` fail the extension test |
| Eligibility.TypeScriptIsScript | packages/vite/src/index.js:18-31 | every id the TypeScript test admits also passes the script-extension gate |
| Eligibility.PassesGate | packages/vite/src/index.js:16-24 | a module is instrumented exactly when the plugin is not skipping, the id has a script extension, contains neither `node_modules` nor `?worker`, the filter admits it and `ssr` is false |
| ParserPlugins.Compact | packages/vite/src/index.js:33 | `filter(Boolean)` returns no more entries than it was given, and every entry it returns is truthy |
| ParserPlugins.CompactMembers | packages/vite/src/index.js:33 | an entry survives `filter(Boolean)` exactly when it was in the list and is truthy |
| ParserPlugins.CompactAppend | packages/vite/src/index.js:33 | filtering a concatenation is the concatenation of the filtered parts, so relative order is kept |
| ParserPlugins.CompactKeepsTruthy | packages/vite/src/index.js:33 | a list with no falsy entry comes through the filter unchanged |
| ParserPlugins.Build | packages/vite/src/index.js:26-33 | the list starts with `jsx, classProperties, classPrivateProperties, classPrivateMethods`; `typescript` comes next for a `.ts`/`.tsx` id; then the user's truthy plugins; every entry is truthy |
| ParserPlugins.TypeScriptExactlyForTypedIds | packages/vite/src/index.js:31 | unless the user lists it, `typescript` is in the list if and only if the id ends with `.ts` or `.tsx` |
| ParserPlugins.UserPluginsKeptInOrder | packages/vite/src/index.js:32-33 | a user's truthy plugins end the list, in their original order |
| Markers.Classify | packages/vite/src/index.js:36-39 | the result is `NoMarkers` iff neither marker occurs, `SignatureOnly` iff only `$RefreshSig$(` occurs, `Full` iff `$RefreshReg$(` occurs |
| Markers.BothMarkersAreFull | packages/vite/src/index.js:36-37 | code holding both markers is `Full` whichever marker comes first |
| Markers.RegistrationDominates | packages/vite/src/index.js:36-37 | text around a registering body cannot turn it into another class |
| JsonString.Stringify | packages/vite/src/index.js:53 | `JSON.stringify(id)` is a double-quoted literal; `JsonString.LiteralRoundTrip` proves it reads back as the id |
| JsonString.LiteralRoundTrip | packages/vite/src/index.js:53 | the literal `JSON.stringify(id)` evaluates to `id` and ends exactly where it was written, whatever code follows it |
| Assembly.PreludeCarriesId | packages/vite/src/index.js:53 | within the prelude, the spliced file-id literal reads back as the id and closes where it was inserted, so no id can inject code |
| Assembly.Assemble | packages/vite/src/index.js:39-97 | no marker: the original source; signature markers only: prelude then body, with Babel's map; a registration marker: prelude, body, epilogue, with Babel's map |
| Assembly.RecoverAssembled | packages/vite/src/index.js:68-97 | emitted code splits back into the prelude at the front, the body, and the epilogue exactly when the body registers; the split returns the classification and the body |
| Assembly.EmittedKeepsMarkers | packages/vite/src/index.js:68-97 | emitted code still contains the marker that chose its shape |
| Plugin.Transform | packages/vite/src/index.js:15-35 | `transform` returns the bare skip iff the gate refuses the module; otherwise Babel's error propagates, or the result is the assembly of Babel's output for the parser list built for the id |
| Plugin.ProductionSkipsEverything | packages/vite/src/index.js:12-17 | after `configResolved` with `command === 'build'` or `isProduction`, every module is skipped |
| Plugin.DevServerSkipsOnlyIneligible | packages/vite/src/index.js:12-24 | when serving for development, a module is skipped exactly when `ssr`, the filter, the extension, `node_modules` or `?worker` refuses it |
| Plugin.UnconfiguredSkipsOnlyIneligible | packages/vite/src/index.js:7-24 | before `configResolved` runs, the mode flag skips nothing |
| Plugin.RefusedIdsSkipped | packages/vite/src/index.js:16-24 | each refusing condition on its own yields the bare skip, whatever Babel would return |
| Plugin.NoMarkersKeepsSource | packages/vite/src/index.js:36-39 | with no marker in Babel's output, `transform` returns the original source text |
| Plugin.SignatureOnlyWraps | packages/vite/src/index.js:68-75 | with signature markers only, `transform` emits prelude then body, with no epilogue, and Babel's map |
| Plugin.RegistrationWrapsFully | packages/vite/src/index.js:78-97 | with a registration marker, `transform` emits prelude, body and epilogue, and Babel's map |
| Runtime.Defaulted | packages/vite/src/index.js:49-50 | the saved hooks are never unset: an unset `$RefreshReg$` is saved as the no-op `() => {}`, an unset `$RefreshSig$` as the identity factory `() => (type) => type`, and a set hook is saved as it is |
| Runtime.DefaultedRegIsCallable | packages/vite/src/index.js:49-84 | the restored `$RefreshReg$` never throws on a slot that was unset or foreign: an unset slot's no-op records nothing, a foreign hook receives the call unchanged |
| Runtime.EpilogueStepsFollowText | packages/vite/src/index.js:84-94 | the epilogue text is its opening, then the statements of the modelled steps in the same order, then its closing; the `$RefreshSig$` restore is written before the `import.meta.hot.accept(` call |
| Runtime.RestoreBeforeAccept | packages/vite/src/index.js:84-94 | the epilogue registers one update handler, and only after both hooks hold the saved values |
| Runtime.Evaluate | packages/vite/src/index.js:45-94 | without a hot context, or for an untouched module, the hooks are left alone; otherwise the body runs with this module's hooks; a registering module restores the (defaulted) previous hooks and registers one handler; a signature-only module leaves its own hooks installed |
| Runtime.DefaultedIdempotent | packages/vite/src/index.js:49-50 | saving already-saved hooks changes nothing |
| Runtime.RegisteringModulesRestoreHooks | packages/vite/src/index.js:84-86 | after any run of registering modules, the slots hold the hooks found before (unset ones defaulted) |
| Runtime.EvaluateAllLeavesBehind | packages/vite/src/index.js:68-94 | after any run of modules, the slots hold the last signature-only module's hooks, or else the defaulted originals if a module registered, or else the originals |
| Runtime.CallReg | packages/vite/src/index.js:52-54 | calling the `$RefreshReg$` slot throws exactly when it is unset (or holds a malformed literal); otherwise it makes at most one registry call, none for the no-op, and that call carries the component it was given |
| Runtime.ForwarderRegistersCompositeKey | packages/vite/src/index.js:52-54 | the installed `$RefreshReg$(type, localId)` calls `register(type, fileId + " " + localId)` |
| Runtime.CompositeKeyInjective | packages/vite/src/index.js:53 | for space-free local ids, equal composite keys mean equal file ids and equal local ids |
| Runtime.Invoke | packages/vite/src/index.js:58-62 | one closure call returns `type`, hands `sign` the current status and keeps what `sign` returns, latches `savedType` only while it is falsy, and gives `sign` a truthy type whenever one has been seen or passed |
| Runtime.Run | packages/vite/src/index.js:59-63 | the signature closure returns every `type` unchanged and passes `key`, `forceReset` and `getCustomHooks` (possibly `undefined`, as in the argument-less `_s()` calls) through to `sign` |
| Runtime.StatusThreaded | packages/vite/src/index.js:57-61 | the first `sign` call gets the starting status (`'begin'` for a fresh closure), each later call gets what the previous call returned, and the closure keeps the last returned status |
| Runtime.SignSeesLatchedTypeAt | packages/vite/src/index.js:58-61 | each `sign` call gets the invocation's own type when it is truthy, else the first truthy type latched so far, else the falsy type itself |
| Runtime.TrackerKeepsFirstTruthyType | packages/vite/src/index.js:58-60 | once a truthy type has been seen, `savedType` holds the first one |
| Runtime.OnAccept | packages/vite/src/index.js:87-93 | the handler calls `flushUpdates` first, and reloads the page exactly once if and only if that call throws |
| Runtime.UpdatesStayConsistent | packages/vite/src/index.js:84-93 | across any number of hot updates, for hooks already in their saved (defaulted) form, which is what they hold after the first registering module ran: the hooks stay as they were, one handler and one flush per update, one reload per failed flush |

## Left out

- Babel's rewrite (`transformSync` with `@prefresh/babel-plugin`, lines 102-113) is a parameter. The fixed options it receives are not modelled: `skipEnvCheck`, `ast: false`, `sourceMaps: true`, `sourceFileName`, `configFile: false`, `babelrc: false`.
- `createFilter` glob matching is a parameter predicate on the id.
- Source-map contents are an opaque type parameter that is passed through.
- The indentation and blank lines of the template literals are normalised. The prelude and epilogue keep their statements and their order.
- JsonString.ScanBody: reads only the escapes a JSON string uses: `\"`, `\\`, `\b`, `\t`, `\n`, `\f`, `\r` and `\uXXXX`. The other JavaScript escapes are outside its scope, and so are `\u` escapes that name a surrogate. Dafny characters are Unicode scalar values, so ids with lone surrogates cannot be stated.
- The browser globals (`self`, `import.meta.hot`, `location.reload`) and the `__PREFRESH__` registry are not modelled. They appear only as the hook slots, the calls made and the flush outcome supplied.
- Runtime.Evaluate: a module's body is assumed not to reassign the hook slots. Module evaluation is assumed to be sequential, as ES modules are.
- The Vite plugin object plumbing (`name`, hook registration) is left out.
- `ssr` is a boolean. Newer Vite passes an options object, and the model does not cover that form.
- `config.isProduction` is a boolean. Only its truthiness is used.
