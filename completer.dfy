/**
 * `Completer`: keeps the last successful parse of each buffer under its name,
 * remembers which buffer was parsed last, and answers a completion query
 * ("foo", "self.x", "a.b.c") from the scope active at the target line.
 */
module Completion {
  import opened Wrappers
  import opened PyStr
  import opened Tokens
  import opened Scopes
  import opened Parser

  /** What the completer keeps of a `FileParser`: its scope arena and the scope active at the target line. */
  datatype ParsedFile = ParsedFile(scopes: seq<Scope>, active: nat)

  predicate WellFormedFile(f: ParsedFile) {
    WellFormedArena(f.scopes) && f.active < |f.scopes|
  }

  /** `all_possible` for scope `s`: its variables, methods and types, without the query itself. */
  function Candidates(s: Scope, query: string): set<string> {
    Names(s) - {query}
  }

  /** Scope `s` offers `part` as a candidate and has a child scope `t` for it. */
  predicate Resolves(scopes: seq<Scope>, s: nat, part: string, query: string, t: nat)
    requires s < |scopes|
  {
    part in Candidates(scopes[s], query) && part in scopes[s].children && scopes[s].children[part] == t
  }

  // ---------------------------------------------------------------------------
  // The walk over the dotted parts of a query
  // ---------------------------------------------------------------------------

  /**
   * Where the walk over the parts of a query stops: the scope reached, how many
   * parts led to a child scope, and the first part that did not (None when
   * every part did).
   */
  datatype Walk = Walk(scope: nat, steps: nat, stuck: Option<string>)

  /** The walk counted from `k` parts further on. */
  function Shift(w: Walk, k: nat): Walk {
    w.(steps := w.steps + k)
  }

  /** The `for part in parts` loop of `get_completions`, started at scope `s`. */
  function Follow(scopes: seq<Scope>, s: nat, parts: seq<string>, query: string): (w: Walk)
    requires WellFormedArena(scopes) && s < |scopes|
    ensures w.scope < |scopes| && w.steps <= |parts|
    ensures w.stuck.None? ==> w.steps == |parts|
    ensures w.stuck.Some? ==> w.steps < |parts| && w.stuck.value == parts[w.steps]
    decreases |parts|
  {
    if parts == [] then Walk(s, 0, None)
    else if parts[0] in Candidates(scopes[s], query) && parts[0] in scopes[s].children then
      Shift(Follow(scopes, scopes[s].children[parts[0]], parts[1..], query), 1)
    else
      Walk(s, 0, Some(parts[0]))
  }

  /** A walk that stops early stops at a part that does not resolve from the scope it reached. */
  lemma {:induction false} FollowStopsUnresolved(scopes: seq<Scope>, s: nat, parts: seq<string>, query: string)
    requires WellFormedArena(scopes) && s < |scopes|
    ensures var w := Follow(scopes, s, parts, query);
            w.stuck.Some? ==> !(w.stuck.value in Candidates(scopes[w.scope], query) && w.stuck.value in scopes[w.scope].children)
    decreases |parts|
  {
    if parts != [] && parts[0] in Candidates(scopes[s], query) && parts[0] in scopes[s].children {
      FollowStopsUnresolved(scopes, scopes[s].children[parts[0]], parts[1..], query);
    }
  }

  /**
   * Following a path of resolving parts first and the rest of the parts
   * afterwards is following all of them.
   */
  lemma {:induction false} FollowAlong(scopes: seq<Scope>, parts: seq<string>, query: string, path: seq<nat>)
    requires WellFormedArena(scopes) && 0 < |path| <= |parts| + 1 && path[0] < |scopes|
    requires forall j :: 0 <= j < |path| - 1 ==> path[j] < |scopes| && Resolves(scopes, path[j], parts[j], query, path[j + 1])
    ensures path[|path| - 1] < |scopes|
    ensures Follow(scopes, path[0], parts, query) ==
              Shift(Follow(scopes, path[|path| - 1], parts[|path| - 1..], query), |path| - 1)
    decreases |path|
  {
    if |path| > 1 {
      assert Resolves(scopes, path[0], parts[0], query, path[1]);
      var path', parts' := path[1..], parts[1..];
      forall j | 0 <= j < |path'| - 1
        ensures path'[j] < |scopes| && Resolves(scopes, path'[j], parts'[j], query, path'[j + 1])
      {
        assert path'[j] == path[j + 1] && path'[j + 1] == path[j + 2] && parts'[j] == parts[j + 1];
        assert Resolves(scopes, path[j + 1], parts[j + 1], query, path[j + 2]);
      }
      FollowAlong(scopes, parts', query, path');
      assert parts'[|path'| - 1..] == parts[|path| - 1..];
    } else {
      assert parts[0..] == parts;
    }
  }

  // ---------------------------------------------------------------------------
  // What `get_completions` answers
  // ---------------------------------------------------------------------------

  /** The names of `names` that start with `prefix`, or all of them when `all`. */
  function Matching(names: set<string>, prefix: string, all: bool): set<string> {
    set p | p in names && (StartsWith(p, prefix) || all)
  }

  /** `global_matches` filtered: global names starting with the query, or all of them for a blank query. */
  function GlobalMatches(f: ParsedFile, query: string): set<string>
    requires WellFormedFile(f)
  {
    Matching(Candidates(f.scopes[0], query), query, Strip(query) == [])
  }

  /** The candidates of scope `s` that start with the part the walk stopped at. */
  function PrefixMatches(s: Scope, query: string, part: string): set<string> {
    Matching(Candidates(s, query), part, false)
  }

  /**
   * The names `get_completions(query)` offers for a parse: the matching global
   * names while no part led to a child scope, plus the names of the scope
   * reached that start with the first part that did not.
   */
  function CompletionSet(f: ParsedFile, query: string): set<string>
    requires WellFormedFile(f)
  {
    var w := Follow(f.scopes, f.active, Split(query, '.'), query);
    (if w.steps == 0 then GlobalMatches(f, query) else {})
    + match w.stuck
      case None => {}
      case Some(part) => PrefixMatches(f.scopes[w.scope], query, part)
  }

  /** A completion is never the query itself, and is a name of the global scope or of the scope the walk reached. */
  lemma CompletionsAreCandidates(f: ParsedFile, query: string)
    requires WellFormedFile(f)
    ensures query !in CompletionSet(f, query)
    ensures var w := Follow(f.scopes, f.active, Split(query, '.'), query);
            CompletionSet(f, query) <= Candidates(f.scopes[0], query) + Candidates(f.scopes[w.scope], query)
  {
  }

  /**
   * Without a dot the query is one part, which is never a candidate (the query
   * is removed from them), so no child scope is entered: the answer is the
   * matching global names plus the active scope's names starting with the query.
   */
  lemma NoDotQuery(f: ParsedFile, query: string)
    requires WellFormedFile(f) && '.' !in query
    ensures CompletionSet(f, query) == GlobalMatches(f, query) + PrefixMatches(f.scopes[f.active], query, query)
  {
    SplitWithoutSeparator(query, '.');
    assert Follow(f.scopes, f.active, [query], query) == Walk(f.active, 0, Some(query));
  }

  /** The empty query offers every name of the global and the active scope except "". */
  lemma EmptyQuery(f: ParsedFile)
    requires WellFormedFile(f)
    ensures CompletionSet(f, "") == Candidates(f.scopes[0], "") + Candidates(f.scopes[f.active], "")
  {
    NoDotQuery(f, "");
  }

  /**
   * A dotted query whose first k parts lead through child scopes along `path`
   * and whose part k does not resolve in the last of them offers that scope's
   * names starting with part k (and, when k is 0, the matching global names).
   */
  lemma DottedQuery(f: ParsedFile, query: string, path: seq<nat>)
    requires WellFormedFile(f) && |path| > 0 && path[0] == f.active
    requires var parts := Split(query, '.');
             && |path| <= |parts|
             && (forall j :: 0 <= j < |path| - 1 ==> path[j] < |f.scopes| && Resolves(f.scopes, path[j], parts[j], query, path[j + 1]))
             && path[|path| - 1] < |f.scopes|
             && !(parts[|path| - 1] in Candidates(f.scopes[path[|path| - 1]], query)
                  && parts[|path| - 1] in f.scopes[path[|path| - 1]].children)
    ensures var k, parts := |path| - 1, Split(query, '.');
            CompletionSet(f, query) ==
              (if k == 0 then GlobalMatches(f, query) else {}) + PrefixMatches(f.scopes[path[k]], query, parts[k])
  {
    var parts := Split(query, '.');
    var k := |path| - 1;
    FollowAlong(f.scopes, parts, query, path);
    assert Follow(f.scopes, path[k], parts[k..], query) == Walk(path[k], 0, Some(parts[k]));
  }

  /** When every part of the query leads to a child scope, nothing is offered. */
  lemma ResolvedQueryIsEmpty(f: ParsedFile, query: string, path: seq<nat>)
    requires WellFormedFile(f) && path != [] && path[0] == f.active
    requires var parts := Split(query, '.');
             && |path| == |parts| + 1
             && forall j :: 0 <= j < |parts| ==> path[j] < |f.scopes| && Resolves(f.scopes, path[j], parts[j], query, path[j + 1])
    ensures CompletionSet(f, query) == {}
  {
    var parts := Split(query, '.');
    FollowAlong(f.scopes, parts, query, path);
    assert parts[|parts|..] == [];
  }

  /** One more name looked at: it matches or it does not. */
  lemma MatchingAdd(seen: set<string>, p: string, prefix: string, all: bool)
    ensures Matching(seen + {p}, prefix, all)
         == Matching(seen, prefix, all) + (if StartsWith(p, prefix) || all then {p} else {})
  {
  }

  /**
   * `for possible in names: if possible.startswith(prefix) or all: matches.append(possible)`,
   * appending to `into`.
   */
  method CollectMatching(into: seq<string>, names: set<string>, prefix: string, all: bool) returns (ms: seq<string>)
    ensures Elems(ms) == Elems(into) + Matching(names, prefix, all)
  {
    ms := into;
    var rest := names;
    while rest != {}
      invariant rest <= names
      invariant Elems(ms) == Elems(into) + Matching(names - rest, prefix, all)
      decreases |rest|
    {
      var p :| p in rest;
      MatchingAdd(names - rest, p, prefix, all);
      assert names - (rest - {p}) == (names - rest) + {p};
      if StartsWith(p, prefix) || all {
        assert Elems(ms + [p]) == Elems(ms) + {p};
        ms := ms + [p];
      }
      rest := rest - {p};
    }
    assert names - rest == names;
  }

  /** A walk that stops at part `i` in `scope` answers with that scope's names starting with the part. */
  lemma StuckAnswer(f: ParsedFile, query: string, scope: nat, i: nat, part: string)
    requires WellFormedFile(f) && scope < |f.scopes|
    requires Follow(f.scopes, f.active, Split(query, '.'), query) == Walk(scope, i, Some(part))
    ensures CompletionSet(f, query) ==
              (if i == 0 then GlobalMatches(f, query) else {}) + Matching(Candidates(f.scopes[scope], query), part, false)
  {
  }

  /** A walk through every part answers with the global matches only when there were no parts to follow. */
  lemma ResolvedAnswer(f: ParsedFile, query: string, scope: nat, n: nat)
    requires WellFormedFile(f) && scope < |f.scopes|
    requires Follow(f.scopes, f.active, Split(query, '.'), query) == Walk(scope, n, None)
    ensures CompletionSet(f, query) == if n == 0 then GlobalMatches(f, query) else {}
  {
  }

  /**
   * The body of `get_completions` once the active buffer's parse `f` is known:
   * the global matches, the descent through the dotted parts, the matches of
   * the part that does not resolve, sorted without repetitions.
   */
  method Complete(f: ParsedFile, query: string) returns (r: seq<string>)
    requires WellFormedFile(f)
    ensures Ascending(r) && query !in r
    ensures Elems(r) == CompletionSet(f, query)
  {
    var scope := f.active;
    var parts := Split(query, '.');
    var allPossible := Names(f.scopes[scope]) - {query};
    var globalMatches := Names(f.scopes[0]) - {query};
    var matches := CollectMatching([], globalMatches, query, Strip(query) == []);
    ghost var w := Follow(f.scopes, f.active, parts, query);
    var i := 0;
    while i < |parts|
      invariant 0 <= i <= |parts| && scope < |f.scopes|
      invariant allPossible == Candidates(f.scopes[scope], query)
      invariant w == Shift(Follow(f.scopes, scope, parts[i..], query), i)
      invariant Elems(matches) == if i == 0 then GlobalMatches(f, query) else {}
    {
      var part := parts[i];
      assert parts[i..][0] == part && parts[i..][1..] == parts[i + 1..];
      if part in allPossible && part in f.scopes[scope].children {
        scope := f.scopes[scope].children[part];
        matches := [];
        allPossible := Names(f.scopes[scope]) - {query};
      } else {
        assert w == Walk(scope, i, Some(part));
        StuckAnswer(f, query, scope, i, part);
        matches := CollectMatching(matches, allPossible, part, false);
        break;
      }
      i := i + 1;
    }
    if i == |parts| {
      assert parts[i..] == [] && w == Walk(scope, i, None);
      ResolvedAnswer(f, query, scope, i);
    }
    CompletionsAreCandidates(f, query);
    r := SortedDistinct(matches);
  }

  // ---------------------------------------------------------------------------
  // The completer object
  // ---------------------------------------------------------------------------

  class Completer {
    const host: Host
    /** `_parsers`: the last successful parse of each buffer, by name. */
    var parsers: map<string, ParsedFile>
    /** `_active_parser`: the name of the buffer parsed last, once there is one. */
    var activeParser: Option<string>

    ghost predicate Valid()
      reads this`parsers, this`activeParser
    {
      && (forall n :: n in parsers ==> WellFormedFile(parsers[n]))
      && (activeParser.Some? ==> activeParser.value in parsers)
    }

    constructor (host: Host)
      ensures Valid() && this.host == host
      ensures parsers == map[] && activeParser == None
    {
      this.host := host;
      parsers := map[];
      activeParser := None;
    }

    /**
     * `parse_file(name, file_content, line)`: parses the buffer; a finished
     * parse replaces the one stored under `name`, a tokenizer error keeps the
     * old one, and either way `name` becomes the active buffer if a parse is
     * stored for it. An exception of the parser itself leaves the method
     * without any change.
     */
    method ParseFile(name: string, content: TokenStream, line: Option<int>) returns (outcome: Stop)
      requires Valid()
      modifies this`parsers, this`activeParser
      ensures Valid()
      ensures outcome == ParseRun(content, host, Start(host)).stop
      ensures !outcome.Crash? ==> outcome == EndOf(content)
      ensures outcome.Crash? ==> parsers == old(parsers) && activeParser == old(activeParser)
      ensures outcome == TokenizeError ==>
                && parsers == old(parsers)
                && activeParser == if name in old(parsers) then Some(name) else old(activeParser)
      ensures outcome == EndOfInput ==>
                && parsers.Keys == old(parsers).Keys + {name}
                && (forall n :: n in old(parsers) && n != name ==> parsers[n] == old(parsers)[n])
                && activeParser == Some(name)
                && (var r := ParseRun(content, host, Start(host)); parsers[name] == ParsedFile(r.st.scopes, ActiveOf(r, line)))
                && host.builtinFunctions <= parsers[name].scopes[0].methods
                && host.builtinTypes <= parsers[name].scopes[0].types
                && (line.None? ==> parsers[name].active == 0)
    {
      var p := new FileParser(host, content, line);
      outcome := p.stop;
      if outcome.Crash? {
        return;
      }
      if outcome == EndOfInput {
        parsers := parsers[name := ParsedFile(p.scopes, p.ActiveScope())];
      }
      if name in parsers {
        activeParser := Some(name);
      }
    }

    /**
     * `get_completions(query)`: the completions in ascending order without
     * repetitions; none while no buffer (or only the buffer named "") is active.
     */
    method GetCompletions(query: string) returns (r: seq<string>)
      requires Valid()
      ensures Ascending(r) && query !in r
      ensures activeParser.None? || activeParser == Some("") ==> r == []
      ensures activeParser.Some? && activeParser.value != "" ==>
                Elems(r) == CompletionSet(parsers[activeParser.value], query)
    {
      if activeParser.None? || activeParser.value == "" {
        return [];
      }
      r := Complete(parsers[activeParser.value], query);
    }
  }
}
