/** Which instrumentation call sites the rewritten code holds, reduced to the
    three shapes the plugin emits. */
module Markers {
  import opened Text

  /** The call sites the rewrite inserts: a component registration and a hook signature. */
  const RegMarker := "$RefreshReg$("
  const SigMarker := "$RefreshSig$("

  /** No call site (pass the source through), signature call sites only
      (prelude, no epilogue), or registrations (prelude and epilogue). */
  datatype Classification = NoMarkers | SignatureOnly | Full

  /** The two regex tests on the instrumented code and the branch they select. */
  function Classify(code: string): (c: Classification)
    ensures c == NoMarkers <==> !Contains(code, RegMarker) && !Contains(code, SigMarker)
    ensures c == SignatureOnly <==> Contains(code, SigMarker) && !Contains(code, RegMarker)
    ensures c == Full <==> Contains(code, RegMarker)
  {
    var hasReg := Includes(code, RegMarker);
    var hasSig := Includes(code, SigMarker);
    if !hasSig && !hasReg then NoMarkers
    else if hasSig && !hasReg then SignatureOnly
    else Full
  }

  /** Both markers give `Full` whichever comes first in the text. */
  lemma BothMarkersAreFull(before: string, between: string, after: string)
    ensures Classify(before + SigMarker + between + RegMarker + after) == Full
    ensures Classify(before + RegMarker + between + SigMarker + after) == Full
  {
    ContainsSelf(RegMarker);
    ContainsInContext(before + SigMarker + between, RegMarker, after, RegMarker);
    ContainsInContext(before, RegMarker, between + SigMarker + after, RegMarker);
    assert before + RegMarker + (between + SigMarker + after) == before + RegMarker + between + SigMarker + after;
  }

  /** A registration anywhere in the code makes it `Full`, whatever surrounds it. */
  lemma RegistrationDominates(before: string, code: string, after: string)
    requires Classify(code) == Full
    ensures Classify(before + code + after) == Full
  {
    ContainsInContext(before, code, after, RegMarker);
  }
}
