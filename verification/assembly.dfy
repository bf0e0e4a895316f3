/** The code `transform` hands back: the original source, or the instrumented
    body wrapped in the runtime prelude and, for registering modules, the
    epilogue. Template-literal indentation is normalised. */
module Assembly {
  import opened Results
  import opened Text
  import opened Markers
  import JsonString

  /** Babel's answer: rewritten code and its source map (`sourceMap`, opaque, passed through). */
  datatype Instrumented<M> = Instrumented(code: string, sourceMap: M)

  /** What `transform` returns: nothing (bare `return;`, the host keeps the
      module as is), the original source (`return code`), or new code and map. */
  datatype Outcome<M> = Skip | Unchanged(code: string) | Emit(code: string, sourceMap: M)

  /** Prelude text up to the spliced-in module id. */
  const PreludeHead: string :=
    "\nimport '@prefresh/vite/runtime';\nimport { flushUpdates } from '@prefresh/vite/utils';\n\n"
    + "let prevRefreshReg;\nlet prevRefreshSig;\n\nif (import.meta.hot) {\n"
    + "  prevRefreshReg = self.$RefreshReg$ || (() => {});\n"
    + "  prevRefreshSig = self.$RefreshSig$ || (() => (type) => type);\n\n"
    + "  self.$RefreshReg$ = (type, id) => {\n    self.__PREFRESH__.register(type, "

  /** Prelude text after the module id: the rest of the registration forwarder
      and the signature hook factory. */
  const PreludeTail: string :=
    " + \" \" + id);\n  }\n\n  self.$RefreshSig$ = () => {\n    let status = 'begin';\n    let savedType;\n"
    + "    return (type, key, forceReset, getCustomHooks) => {\n      if (!savedType) savedType = type;\n"
    + "      status = self.__PREFRESH__.sign(type || savedType, key, forceReset, getCustomHooks, status);\n"
    + "      return type;\n    };\n  };\n}\n"

  /** The epilogue's opening, up to its first statement. */
  const EpilogueOpen: string := "\n\nif (import.meta.hot) {\n"

  /** The epilogue's three statements, one constant each. */
  const RestoreRegText: string := "  self.$RefreshReg$ = prevRefreshReg;\n"
  const RestoreSigText: string := "  self.$RefreshSig$ = prevRefreshSig;\n"
  const AcceptText: string :=
    "  import.meta.hot.accept((m) => {\n    try {\n      flushUpdates();\n    } catch (e) {\n"
    + "      self.location.reload();\n    }\n  });\n"

  const EpilogueClose: string := "}\n"

  /** Restores the saved hooks, then registers the update handler. */
  const Epilogue: string := EpilogueOpen + RestoreRegText + RestoreSigText + AcceptText + EpilogueClose

  /** The prelude for module `id`, which carries `JSON.stringify(id)`. */
  function Prelude(id: string): string {
    PreludeHead + JsonString.Stringify(id) + PreludeTail
  }

  /** Inside the prelude the module id is one string literal: it reads back as
      the id and closes exactly where it was spliced in, so no id can end the
      literal early and inject code. */
  lemma PreludeCarriesId(id: string)
    ensures |Prelude(id)| > |PreludeHead|
    ensures JsonString.ScanLiteral(Prelude(id)[|PreludeHead|..]) == Some((id, |JsonString.Stringify(id)|))
  {
    SplicedLiteral(PreludeHead, id, PreludeTail);
  }

  /** A stringified id spliced between two texts reads back from its position. */
  lemma SplicedLiteral(head: string, id: string, tail: string)
    ensures |head + JsonString.Stringify(id) + tail| > |head|
    ensures JsonString.ScanLiteral((head + JsonString.Stringify(id) + tail)[|head|..]) ==
              Some((id, |JsonString.Stringify(id)|))
  {
    assert (head + JsonString.Stringify(id) + tail)[|head|..] == JsonString.Stringify(id) + tail;
    JsonString.LiteralRoundTrip(id, tail);
  }

  /** The three branches that follow the marker tests. */
  function Assemble<M>(original: string, inst: Instrumented<M>, id: string): (out: Outcome<M>)
    ensures !Contains(inst.code, RegMarker) && !Contains(inst.code, SigMarker) ==>
              out == Unchanged(original)
    ensures Contains(inst.code, SigMarker) && !Contains(inst.code, RegMarker) ==>
              out == Emit(Prelude(id) + inst.code, inst.sourceMap)
    ensures Contains(inst.code, RegMarker) ==>
              out == Emit(Prelude(id) + inst.code + Epilogue, inst.sourceMap)
  {
    match Classify(inst.code)
    case NoMarkers => Unchanged(original)
    case SignatureOnly => Emit(Prelude(id) + inst.code, inst.sourceMap)
    case Full => Emit(Prelude(id) + inst.code + Epilogue, inst.sourceMap)
  }

  /** Takes emitted code apart: the wrapping it received and the instrumented
      body, or nothing when it does not start with the prelude for `id`. */
  function Recover(out: string, id: string): Option<(Classification, string)> {
    Unwrap(out, Prelude(id), Epilogue)
  }

  /** Strips `prelude` from the front and, when the rest registers, `epilogue`
      from the back. */
  function Unwrap(out: string, prelude: string, epilogue: string): Option<(Classification, string)> {
    if |out| < |prelude| || out[..|prelude|] != prelude then None
    else
      var rest := out[|prelude|..];
      if !Includes(rest, RegMarker) then Some((SignatureOnly, rest))
      else if |rest| >= |epilogue| && rest[|rest| - |epilogue|..] == epilogue then
        Some((Full, rest[..|rest| - |epilogue|]))
      else None
  }

  /** Unwrapping undoes either wrapping of a body of the matching shape. */
  lemma UnwrapWrapped(prelude: string, body: string, epilogue: string)
    ensures Classify(body) == SignatureOnly ==>
              Unwrap(prelude + body, prelude, epilogue) == Some((SignatureOnly, body))
    ensures Classify(body) == Full ==>
              Unwrap(prelude + body + epilogue, prelude, epilogue) == Some((Full, body))
  {
    var sig := prelude + body;
    assert sig[..|prelude|] == prelude && sig[|prelude|..] == body;
    var full := prelude + body + epilogue;
    var rest := body + epilogue;
    assert full[..|prelude|] == prelude && full[|prelude|..] == rest;
    assert rest[..|body|] == body && rest[|body|..] == epilogue;
    if Classify(body) == Full {
      ContainsInContext([], body, epilogue, RegMarker);
      assert [] + body + epilogue == rest;
    }
  }

  /** Emitted code holds the prelude once at the front, then the body once, then
      the epilogue exactly when the body registers: taking it apart gives back
      the classification and the body. */
  lemma RecoverAssembled<M>(original: string, inst: Instrumented<M>, id: string)
    requires Assemble(original, inst, id).Emit?
    ensures Recover(Assemble(original, inst, id).code, id) == Some((Classify(inst.code), inst.code))
  {
    UnwrapWrapped(Prelude(id), inst.code, Epilogue);
  }

  /** Emitted code still holds the marker that chose its shape: the
      registration marker of a registering body, the signature marker of a
      signature-only body. */
  lemma EmittedKeepsMarkers<M>(original: string, inst: Instrumented<M>, id: string)
    requires Assemble(original, inst, id).Emit?
    ensures Contains(inst.code, RegMarker) ==> Contains(Assemble(original, inst, id).code, RegMarker)
    ensures Classify(inst.code) == SignatureOnly ==> Contains(Assemble(original, inst, id).code, SigMarker)
    ensures Classify(Assemble(original, inst, id).code) != NoMarkers
  {
    var p := Prelude(id);
    if Contains(inst.code, RegMarker) {
      ContainsInContext(p, inst.code, Epilogue, RegMarker);
    } else {
      ContainsInContext(p, inst.code, [], SigMarker);
      assert p + inst.code + [] == p + inst.code;
    }
  }
}
