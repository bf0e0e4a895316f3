/** Which modules the plugin instruments: the skip flag set once when the host
    resolves its configuration, and the gate at the head of `transform`. */
module Eligibility {
  import opened Text

  /** The part of the host's resolved configuration the plugin reads. */
  datatype ResolvedConfig = ResolvedConfig(command: string, isProduction: bool)

  /** The plugin's only state: whether every module is to be left alone. */
  datatype PluginState = PluginState(shouldSkip: bool)

  /** Before the configuration is resolved nothing is skipped. */
  const Initial := PluginState(false)

  /** `configResolved`: skip during a production build. Any other
      configuration leaves the plugin as it started. */
  function ConfigResolved(config: ResolvedConfig): (st: PluginState)
    ensures st.shouldSkip <==> config.command == "build" || config.isProduction
    ensures config.command != "build" && !config.isProduction ==> st == Initial
  {
    PluginState(config.command == "build" || config.isProduction)
  }

  /** The extensions the gate admits, compared case-sensitively. */
  const ScriptSuffixes: seq<string> := [".js", ".jsx", ".ts", ".tsx"]
  const TypeScriptSuffixes: seq<string> := [".ts", ".tsx"]

  /** Reference meaning of an extension test: `id` ends with one of `suffixes`. */
  ghost predicate EndsWithOneOf(id: string, suffixes: seq<string>) {
    exists k :: 0 <= k < |suffixes| && EndsWith(id, suffixes[k])
  }

  /** The letter group of the regex: `(t|j)` when `orJ`, else just `t`. */
  predicate LetterGroup(c: char, orJ: bool) {
    c == 't' || (orJ && c == 'j')
  }

  /** `s` ends with a dot, then a letter of the group, then `s`. */
  predicate EndsWithDotLetterS(s: string, orJ: bool) {
    |s| >= 3 && s[|s| - 3] == '.' && LetterGroup(s[|s| - 2], orJ) && s[|s| - 1] == 's'
  }

  /** Drops one trailing `x`, the optional last atom of both extension regexes. */
  function DropOptionalX(id: string): string {
    if |id| > 0 && id[|id| - 1] == 'x' then id[..|id| - 1] else id
  }

  /** `/\.(t|j)sx?$/.test(id)`, read as the regex is built: an optional final
      `x`, before it `s`, before that `t` or `j`, before that a dot. A final
      `x` cannot instead be matched by `s`, so dropping it is the only way. */
  function MatchesScriptPattern(id: string): (ok: bool)
    ensures ok <==> EndsWithOneOf(id, ScriptSuffixes)
  {
    ScriptPatternMeaning(id);
    EndsWithDotLetterS(DropOptionalX(id), true)
  }

  /** `/\.tsx?$/.test(id)`: the same shape with only `t` allowed. */
  function MatchesTypeScriptPattern(id: string): (ok: bool)
    ensures ok <==> EndsWithOneOf(id, TypeScriptSuffixes)
  {
    TypeScriptPatternMeaning(id);
    EndsWithDotLetterS(DropOptionalX(id), false)
  }

  /** A three-character suffix, character by character. */
  lemma EndsWith3(id: string, a: char, b: char, c: char)
    ensures EndsWith(id, [a, b, c]) <==>
              |id| >= 3 && id[|id| - 3] == a && id[|id| - 2] == b && id[|id| - 1] == c
  {
    if |id| >= 3 && id[|id| - 3] == a && id[|id| - 2] == b && id[|id| - 1] == c {
      assert id[|id| - 3..] == [a, b, c];
    }
  }

  /** A four-character suffix, character by character. */
  lemma EndsWith4(id: string, a: char, b: char, c: char, d: char)
    ensures EndsWith(id, [a, b, c, d]) <==>
              |id| >= 4 && id[|id| - 4] == a && id[|id| - 3] == b && id[|id| - 2] == c && id[|id| - 1] == d
  {
    if |id| >= 4 && id[|id| - 4] == a && id[|id| - 3] == b && id[|id| - 2] == c && id[|id| - 1] == d {
      assert id[|id| - 4..] == [a, b, c, d];
    }
  }

  /** What either extension regex asks of the last characters of `id`. */
  lemma PatternByChars(id: string, orJ: bool)
    ensures EndsWithDotLetterS(DropOptionalX(id), orJ) <==>
              var n := |id|;
              if n > 0 && id[n - 1] == 'x' then
                n >= 4 && id[n - 4] == '.' && LetterGroup(id[n - 3], orJ) && id[n - 2] == 's'
              else
                n >= 3 && id[n - 3] == '.' && LetterGroup(id[n - 2], orJ) && id[n - 1] == 's'
  {
    var n := |id|;
    if n > 0 && id[n - 1] == 'x' {
      var stem := id[..n - 1];
      assert DropOptionalX(id) == stem;
      if |stem| >= 3 {
        assert stem[|stem| - 3] == id[n - 4];
        assert stem[|stem| - 2] == id[n - 3];
        assert stem[|stem| - 1] == id[n - 2];
      }
    }
  }

  /** The pattern, against the four script extensions spelled out. */
  lemma ScriptPatternByExtension(id: string)
    ensures EndsWithDotLetterS(DropOptionalX(id), true) <==>
              EndsWith(id, ".js") || EndsWith(id, ".jsx") || EndsWith(id, ".ts") || EndsWith(id, ".tsx")
  {
    PatternByChars(id, true);
    EndsWith3(id, '.', 'j', 's');
    EndsWith4(id, '.', 'j', 's', 'x');
    EndsWith3(id, '.', 't', 's');
    EndsWith4(id, '.', 't', 's', 'x');
    var n := |id|;
    if n > 0 && id[n - 1] == 'x' {
      assert !EndsWith(id, ".js") && !EndsWith(id, ".ts");
    } else {
      assert !EndsWith(id, ".jsx") && !EndsWith(id, ".tsx");
    }
  }

  lemma ScriptSuffixesSpelledOut(id: string)
    ensures EndsWithOneOf(id, ScriptSuffixes) <==>
              EndsWith(id, ".js") || EndsWith(id, ".jsx") || EndsWith(id, ".ts") || EndsWith(id, ".tsx")
  {
    assert ScriptSuffixes[0] == ".js" && ScriptSuffixes[1] == ".jsx";
    assert ScriptSuffixes[2] == ".ts" && ScriptSuffixes[3] == ".tsx";
  }

  /** The regex `\.(t|j)sx?$` admits exactly the four script extensions. */
  lemma ScriptPatternMeaning(id: string)
    ensures EndsWithDotLetterS(DropOptionalX(id), true) <==> EndsWithOneOf(id, ScriptSuffixes)
  {
    ScriptPatternByExtension(id);
    ScriptSuffixesSpelledOut(id);
  }

  /** The pattern, against the two TypeScript extensions spelled out. */
  lemma TypeScriptPatternByExtension(id: string)
    ensures EndsWithDotLetterS(DropOptionalX(id), false) <==> EndsWith(id, ".ts") || EndsWith(id, ".tsx")
  {
    PatternByChars(id, false);
    EndsWith3(id, '.', 't', 's');
    EndsWith4(id, '.', 't', 's', 'x');
  }

  lemma TypeScriptSuffixesSpelledOut(id: string)
    ensures EndsWithOneOf(id, TypeScriptSuffixes) <==> EndsWith(id, ".ts") || EndsWith(id, ".tsx")
  {
    assert TypeScriptSuffixes[0] == ".ts" && TypeScriptSuffixes[1] == ".tsx";
  }

  /** The regex `\.tsx?$` admits exactly the two TypeScript extensions. */
  lemma TypeScriptPatternMeaning(id: string)
    ensures EndsWithDotLetterS(DropOptionalX(id), false) <==> EndsWithOneOf(id, TypeScriptSuffixes)
  {
    TypeScriptPatternByExtension(id);
    TypeScriptSuffixesSpelledOut(id);
  }

  /** The gate of `transform`: the module is instrumented only if the plugin
      is not skipping, the id has a script extension and names neither a
      dependency nor a worker, the include/exclude filter admits it, and the
      request does not render on the server. */
  function PassesGate(st: PluginState, id: string, ssr: bool, filter: string -> bool): (ok: bool)
    ensures ok <==>
              && !st.shouldSkip
              && EndsWithOneOf(id, ScriptSuffixes)
              && !Contains(id, "node_modules")
              && !Contains(id, "?worker")
              && filter(id)
              && !ssr
  {
    !(st.shouldSkip
      || !MatchesScriptPattern(id)
      || Includes(id, "node_modules")
      || Includes(id, "?worker")
      || !filter(id)
      || ssr)
  }

  /** Ids whose extension differs from the four only by case, by a prefix
      letter or by a trailing letter are refused. */
  lemma NearMissExtensionsRefused(stem: string)
    ensures !MatchesScriptPattern(stem + ".mjs")
    ensures !MatchesScriptPattern(stem + ".JSX")
    ensures !MatchesScriptPattern(stem + ".tsxx")
    ensures !MatchesScriptPattern(stem + ".cts")
  {
    var ids := [stem + ".mjs", stem + ".JSX", stem + ".tsxx", stem + ".cts"];
    forall i | 0 <= i < 4
      ensures !EndsWithDotLetterS(DropOptionalX(ids[i]), true)
    {
      var id := ids[i];
      assert id[|id| - 1] == ids[i][|ids[i]| - 1];
    }
  }

  /** Every TypeScript id also passes the script-extension test. */
  lemma TypeScriptIsScript(id: string)
    ensures MatchesTypeScriptPattern(id) ==> MatchesScriptPattern(id)
  {
  }
}
