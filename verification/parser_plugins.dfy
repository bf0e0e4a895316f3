/** The `parserPlugins` list the plugin hands to Babel's parser for a module. */
module ParserPlugins {
  import opened Results
  import Eligibility

  /** An element of the list: a plugin name, a `[name, options]` pair (options
      kept as opaque text), or a falsy value (`false`, `null`, `undefined`,
      `0`). The empty name is falsy too. */
  datatype Entry = Name(name: string) | WithOptions(name: string, options: string) | Falsy

  /** JavaScript truthiness of an entry, the test `filter(Boolean)` applies. */
  predicate Truthy(e: Entry) {
    match e
    case Name(n) => n != ""
    case WithOptions(_, _) => true
    case Falsy => false
  }

  /** `entries.filter(Boolean)`: the truthy entries, in their order. */
  function Compact(entries: seq<Entry>): (kept: seq<Entry>)
    ensures |kept| <= |entries|
    ensures forall i :: 0 <= i < |kept| ==> Truthy(kept[i])
    decreases |entries|
  {
    if entries == [] then []
    else (if Truthy(entries[0]) then [entries[0]] else []) + Compact(entries[1..])
  }

  /** The filter keeps exactly the truthy entries. */
  lemma {:induction false} CompactMembers(entries: seq<Entry>)
    ensures forall e :: e in Compact(entries) <==> e in entries && Truthy(e)
    decreases |entries|
  {
    if entries != [] {
      CompactMembers(entries[1..]);
      assert entries == [entries[0]] + entries[1..];
    }
  }

  /** Filtering a concatenation filters each part: order is kept. */
  lemma {:induction false} CompactAppend(a: seq<Entry>, b: seq<Entry>)
    ensures Compact(a + b) == Compact(a) + Compact(b)
    decreases |a|
  {
    if a == [] {
      assert a + b == b;
    } else {
      assert (a + b)[1..] == a[1..] + b;
      CompactAppend(a[1..], b);
    }
  }

  /** A list with no falsy entry passes through the filter unchanged. */
  lemma {:induction false} CompactKeepsTruthy(entries: seq<Entry>)
    requires forall i :: 0 <= i < |entries| ==> Truthy(entries[i])
    ensures Compact(entries) == entries
    decreases |entries|
  {
    if entries != [] {
      CompactKeepsTruthy(entries[1..]);
      assert [entries[0]] + entries[1..] == entries;
    }
  }

  /** The syntax extensions every module is parsed with, in this order. */
  const BaseSyntax: seq<Entry> :=
    [Name("jsx"), Name("classProperties"), Name("classPrivateProperties"), Name("classPrivateMethods")]

  const TypeScript := Name("typescript")

  /** `options.parserPlugins || []`: absent user plugins read as none. */
  function UserPlugins(configured: Option<seq<Entry>>): seq<Entry> {
    configured.GetOr([])
  }

  /** The list for module `id`: the base syntax, `typescript` for a `.ts` or
      `.tsx` id (`false` otherwise), the user's plugins, then the falsy
      entries removed. */
  function Build(id: string, configured: Option<seq<Entry>>): (plugins: seq<Entry>)
    ensures |plugins| >= 4 && plugins[..4] == BaseSyntax
    ensures Eligibility.EndsWithOneOf(id, Eligibility.TypeScriptSuffixes) ==>
              |plugins| >= 5 && plugins[4] == TypeScript && plugins[5..] == Compact(UserPlugins(configured))
    ensures !Eligibility.EndsWithOneOf(id, Eligibility.TypeScriptSuffixes) ==>
              plugins[4..] == Compact(UserPlugins(configured))
    ensures forall i :: 0 <= i < |plugins| ==> Truthy(plugins[i])
  {
    var typed := if Eligibility.MatchesTypeScriptPattern(id) then TypeScript else Falsy;
    var user := UserPlugins(configured);
    CompactLayout(BaseSyntax, typed, user);
    Compact(BaseSyntax + [typed] + user)
  }

  /** The filter decides the first entry, then filters the rest. */
  lemma CompactCons(first: Entry, rest: seq<Entry>)
    ensures Compact([first] + rest) == (if Truthy(first) then [first] else []) + Compact(rest)
  {
    assert ([first] + rest)[0] == first;
    assert ([first] + rest)[1..] == rest;
  }

  /** The filter leaves an all-truthy front in place and drops a falsy middle entry. */
  lemma CompactLayout(base: seq<Entry>, typed: Entry, user: seq<Entry>)
    requires forall i :: 0 <= i < |base| ==> Truthy(base[i])
    ensures Compact(base + [typed] + user) ==
              base + (if Truthy(typed) then [typed] else []) + Compact(user)
  {
    var rest := [typed] + user;
    var middle := if Truthy(typed) then [typed] else [];
    assert base + [typed] + user == base + rest;
    CompactAppend(base, rest);
    CompactKeepsTruthy(base);
    CompactCons(typed, user);
    assert Compact(base + rest) == base + (middle + Compact(user));
    assert base + (middle + Compact(user)) == base + middle + Compact(user);
  }

  /** Unless the user lists it themselves, `typescript` is enabled exactly for
      `.ts` and `.tsx` ids. */
  lemma TypeScriptExactlyForTypedIds(id: string, configured: Option<seq<Entry>>)
    requires TypeScript !in UserPlugins(configured)
    ensures TypeScript in Build(id, configured) <==> Eligibility.EndsWithOneOf(id, Eligibility.TypeScriptSuffixes)
  {
    var plugins := Build(id, configured);
    CompactMembers(UserPlugins(configured));
    assert plugins == plugins[..4] + plugins[4..];
    assert TypeScript !in BaseSyntax;
    if Eligibility.EndsWithOneOf(id, Eligibility.TypeScriptSuffixes) {
      assert plugins[4] == TypeScript;
    } else {
      assert TypeScript !in plugins[4..];
    }
  }

  /** A user's truthy plugins appear after the built-in ones, in their order. */
  lemma UserPluginsKeptInOrder(id: string, user: seq<Entry>)
    requires forall i :: 0 <= i < |user| ==> Truthy(user[i])
    ensures var plugins := Build(id, Some(user));
            |plugins| >= |user| && plugins[|plugins| - |user|..] == user
  {
    CompactKeepsTruthy(user);
  }
}
