/**
 * `FileParser`: consumes the token stream of one buffer statement by
 * statement, keeping a pointer to the current scope, a stack of dedent flags
 * and a line counter, and records classes, methods, parameters and assigned
 * names in the scope arena.
 *
 * The token reader is the second `_get_next_token` of the source, the one
 * Python binds: it counts a line whenever a token's text is "\n" and never
 * hands DEDENT tokens to `_dedent`, so scopes are left only by a one-line
 * class body.
 */
module Parser {
  import opened Wrappers
  import opened PyStr
  import opened Tokens
  import opened Scopes
  import opened Headers

  /** Block keywords whose body stays in the enclosing scope. */
  const InheritScopeKeywords: set<string> := {"if", "else", "for", "elif", "try", "except", "do", "while", "with"}

  /** Keywords whose statement is skipped. */
  const IgnoredKeywords: set<string> := {"raise", "assert", "break", "continue", "throw", "print", "pass", "return"}

  /** The tokens a def header drops before reading parameter names. */
  const HeaderPunctuation: set<string> := {"(", ",", ")", ":"}

  /** The exceptions the parser itself raises, which nothing in the module catches. */
  datatype CrashReason =
    | NoParentScope        // `self... = ...` at module level: `None.name` raises AttributeError
    | NoMemberName         // `self = ...`: `lvalue_tokens[2]` raises IndexError
    | EmptyRightHandSide   // nothing kept after "=": `rvalue_tokens[0]` raises IndexError

  /** How the token loop ends. */
  datatype Stop =
    | EndOfInput                 // StopIteration: the normal end of a parse
    | TokenizeError              // IndentationError or TokenError from the tokenizer
    | Crash(reason: CrashReason)

  /** What reading past the last token gives. */
  function EndOf(input: TokenStream): Stop {
    if input.failsAtEnd then TokenizeError else EndOfInput
  }

  /**
   * The arena after `name = ...` is recorded in scope `target`: `name` becomes a
   * variable there and, when the right-hand side suggests a catalog type, is
   * bound to a fresh catalog scope whose parent is `owner`. Without a catalog
   * type an earlier binding of `name` stays.
   */
  function Assigned(scopes: seq<Scope>, target: nat, name: string, cat: Option<Catalog>, owner: nat, host: Host): (r: seq<Scope>)
    requires WellFormedArena(scopes) && target < |scopes| && owner < |scopes|
    ensures WellFormedArena(r) && |r| == |scopes| + (if cat.Some? then 1 else 0)
  {
    match cat
    case None => AddVariable(scopes, target, name)
    case Some(c) => BindVariable(AddCatalog(scopes, host, c, owner), target, name, |scopes|)
  }

  /**
   * An assignment records the name as a variable of the target scope; with a
   * catalog type it binds the name to the fresh catalog scope appended under
   * `owner`, without one an earlier binding stays; no other scope changes and
   * nothing is removed.
   */
  lemma AssignedRecords(scopes: seq<Scope>, target: nat, name: string, cat: Option<Catalog>, owner: nat, host: Host)
    requires WellFormedArena(scopes) && target < |scopes| && owner < |scopes|
    ensures var r := Assigned(scopes, target, name, cat, owner, host);
            && Grows(scopes, r)
            && r[target].variables == scopes[target].variables + {name}
            && (cat.Some? ==> name in r[target].children && r[target].children[name] == |scopes|
                              && r[|scopes|] == CatalogScope(host, cat.value, owner))
            && (cat.None? ==> r[target].children == scopes[target].children)
            && forall i :: 0 <= i < |scopes| && i != target ==> r[i] == scopes[i]
  {
  }

  /** The texts of the tokens `ps`. */
  function Texts(ps: seq<Token>): (r: set<string>)
    ensures forall i :: 0 <= i < |ps| ==> ps[i].text in r
    decreases |ps|
  {
    if ps == [] then {} else Texts(ps[..|ps| - 1]) + {ps[|ps| - 1].text}
  }

  /** The texts of a non-empty list: the first one's and the rest's. */
  lemma {:induction false} TextsFirst(ps: seq<Token>)
    requires ps != []
    ensures Texts(ps) == {ps[0].text} + Texts(ps[1..])
    decreases |ps|
  {
    if |ps| > 1 {
      TextsFirst(ps[..|ps| - 1]);
      assert ps[..|ps| - 1][1..] == ps[1..][..|ps[1..]| - 1];
    } else {
      assert ps[..0] == [] && ps[1..] == [];
    }
  }

  /**
   * A method scope after binding the parameters `ps` in order, the i-th to the
   * scope at index `base + i`; a repeated name keeps its last binding.
   */
  function BindParams(s: Scope, ps: seq<Token>, base: nat): (r: Scope)
    ensures r.name == s.name && r.kind == s.kind && r.parent == s.parent
    ensures r.methods == s.methods && r.types == s.types && r.inheritedNames == s.inheritedNames
    ensures r.variables == s.variables + Texts(ps)
    ensures r.children.Keys == s.children.Keys + Texts(ps)
    ensures forall i :: 0 <= i < |ps| ==> base <= r.children[ps[i].text] < base + |ps|
    ensures forall x :: x in s.children && (forall i :: 0 <= i < |ps| ==> ps[i].text != x) ==> r.children[x] == s.children[x]
    decreases |ps|
  {
    if ps == [] then s
    else
      var s' := BindParams(s, ps[..|ps| - 1], base);
      var n := ps[|ps| - 1].text;
      assert forall i :: 0 <= i < |ps| - 1 ==> ps[..|ps| - 1][i] == ps[i];
      s'.(variables := s'.variables + {n}, children := s'.children[n := base + |ps| - 1])
  }

  /**
   * The arena `base` once the parameters `ps` are bound in scope `k`, which
   * started as `start`: one fresh `object` catalog scope under `k` per
   * parameter, appended in order.
   */
  function WithObjectParams(base: seq<Scope>, k: nat, start: Scope, ps: seq<Token>, host: Host): (r: seq<Scope>)
    requires k < |base|
    ensures |r| == |base| + |ps|
  {
    base[k := BindParams(start, ps, |base|)] + seq(|ps|, _ => CatalogScope(host, ObjectCatalog, k))
  }

  /**
   * The arena once scope `k` has read the parameter tokens `ps` of its def
   * header: with an enclosing class `cls`, the first parameter is bound to it,
   * and the others each get a fresh `object` catalog scope.
   */
  function DefParams(scopes: seq<Scope>, k: nat, ps: seq<Token>, cls: Option<nat>, host: Host): (r: seq<Scope>)
    requires k < |scopes|
  {
    var s := scopes[k];
    if ps != [] && cls.Some? then
      WithObjectParams(scopes, k, s.(variables := s.variables + {ps[0].text},
                                     children := s.children[ps[0].text := cls.value]), ps[1..], host)
    else
      WithObjectParams(scopes, k, s, ps, host)
  }

  /**
   * Reading a def header's parameters makes each of them a variable of scope
   * `k`; with an enclosing class the first is bound to that class (unless a
   * later parameter has the same name), and every other parameter is bound
   * to a fresh `object` catalog scope whose parent is `k`; no other existing
   * scope changes.
   */
  lemma DefParamsRecords(scopes: seq<Scope>, k: nat, ps: seq<Token>, cls: Option<nat>, host: Host)
    requires k < |scopes|
    ensures var r := DefParams(scopes, k, ps, cls, host);
            var others := if ps != [] && cls.Some? then ps[1..] else ps;
            && |r| == |scopes| + |others|
            && r[k].variables == scopes[k].variables + Texts(ps)
            && (forall i :: 0 <= i < |others| ==>
                  |scopes| <= r[k].children[others[i].text] < |r|
                  && r[r[k].children[others[i].text]] == CatalogScope(host, ObjectCatalog, k))
            && (ps != [] && cls.Some? && ps[0].text !in Texts(others) ==> r[k].children[ps[0].text] == cls.value)
            && (forall i :: 0 <= i < |scopes| && i != k ==> r[i] == scopes[i])
  {
    var s := scopes[k];
    if ps != [] && cls.Some? {
      TextsFirst(ps);
      var start := s.(variables := s.variables + {ps[0].text}, children := s.children[ps[0].text := cls.value]);
      assert DefParams(scopes, k, ps, cls, host) == WithObjectParams(scopes, k, start, ps[1..], host);
      ObjectParamsBound(scopes, k, start, ps[1..], host);
    } else {
      assert DefParams(scopes, k, ps, cls, host) == WithObjectParams(scopes, k, s, ps, host);
      ObjectParamsBound(scopes, k, s, ps, host);
    }
  }

  /** Binding one more parameter appends its catalog scope and binds it in `k`. */
  lemma ObjectParamStep(base: seq<Scope>, k: nat, start: Scope, ps: seq<Token>, i: nat, host: Host)
    requires k < |base| && i < |ps| && WellFormedArena(WithObjectParams(base, k, start, ps[..i], host))
    ensures var w := WithObjectParams(base, k, start, ps[..i], host);
            BindVariable(AddCatalog(w, host, ObjectCatalog, k), k, ps[i].text, |w|) == WithObjectParams(base, k, start, ps[..i + 1], host)
  {
    var q := ps[..i + 1];
    assert q[..i] == ps[..i] && q[i] == ps[i];
    var b := BindParams(start, ps[..i], |base|);
    var b' := b.(variables := b.variables + {ps[i].text}, children := b.children[ps[i].text := |base| + i]);
    assert BindParams(start, q, |base|) == b';
    var cat := CatalogScope(host, ObjectCatalog, k);
    var w := WithObjectParams(base, k, start, ps[..i], host);
    ConstantSnoc(cat, i);
    assert w + [cat] == base[k := b] + seq(i + 1, _ => cat);
    UpdateAppend(base, seq(i + 1, _ => cat), k, b, b');
  }

  /** A run of `n + 1` copies of `x` is a run of `n` copies followed by one more. */
  lemma ConstantSnoc<T>(x: T, n: nat)
    ensures seq(n + 1, _ => x) == seq(n, _ => x) + [x]
  {
  }

  /** Binding the parameters one at a time keeps the arena well formed. */
  lemma {:induction false} ObjectParamsWellFormed(base: seq<Scope>, k: nat, ps: seq<Token>, i: nat, host: Host)
    requires WellFormedArena(base) && k < |base| && i <= |ps|
    ensures WellFormedArena(WithObjectParams(base, k, base[k], ps[..i], host))
    decreases i
  {
    if i == 0 {
      assert WithObjectParams(base, k, base[k], ps[..0], host) == base;
    } else {
      ObjectParamsWellFormed(base, k, ps, i - 1, host);
      ObjectParamStep(base, k, base[k], ps, i - 1, host);
    }
  }

  /** Reading a def header's parameters keeps the arena well formed. */
  lemma DefParamsWellFormed(scopes: seq<Scope>, k: nat, ps: seq<Token>, cls: Option<nat>, host: Host)
    requires WellFormedArena(scopes) && k < |scopes| && (cls.Some? ==> cls.value < |scopes|)
    ensures WellFormedArena(DefParams(scopes, k, ps, cls, host))
  {
    if ps != [] && cls.Some? {
      var b := BindVariable(scopes, k, ps[0].text, cls.value);
      assert DefParams(scopes, k, ps, cls, host) == WithObjectParams(b, k, b[k], ps[1..], host);
      ObjectParamsWellFormed(b, k, ps[1..], |ps| - 1, host);
      assert ps[1..][..|ps| - 1] == ps[1..];
    } else {
      ObjectParamsWellFormed(scopes, k, ps, |ps|, host);
      assert ps[..|ps|] == ps;
    }
  }

  /** Updating an element of the front part of a concatenation twice keeps only the last value. */
  lemma UpdateAppend<T>(a: seq<T>, s: seq<T>, k: nat, x: T, y: T)
    requires k < |a|
    ensures (a[k := x] + s)[k := y] == a[k := y] + s
  {
  }

  /**
   * After binding, scope `k` has every parameter as a variable, each bound to
   * one of the `object` catalog scopes appended for them, and keeps every
   * earlier binding of a name that is not a parameter.
   */
  lemma ObjectParamsBound(base: seq<Scope>, k: nat, start: Scope, ps: seq<Token>, host: Host)
    requires k < |base|
    ensures var w := WithObjectParams(base, k, start, ps, host);
            && w[k].variables == start.variables + Texts(ps)
            && (forall i :: 0 <= i < |ps| ==>
                  |base| <= w[k].children[ps[i].text] < |w| && w[w[k].children[ps[i].text]] == CatalogScope(host, ObjectCatalog, k))
            && forall x :: x in start.children && x !in Texts(ps) ==> w[k].children[x] == start.children[x]
  {
    var w := WithObjectParams(base, k, start, ps, host);
    assert w[k] == BindParams(start, ps, |base|);
    forall i | 0 <= i < |ps|
      ensures |base| <= w[k].children[ps[i].text] < |w| && w[w[k].children[ps[i].text]] == CatalogScope(host, ObjectCatalog, k)
    {
      var j := w[k].children[ps[i].text];
      assert w[j] == seq(|ps|, _ => CatalogScope(host, ObjectCatalog, k))[j - |base|];
    }
  }

  /** What a statement handler leaves behind: the exception it raised, if any, and the arena. */
  datatype Effect = Effect(halt: Option<Stop>, scopes: seq<Scope>)

  /**
   * The bookkeeping of `_parse_statement` once the statement `stmt` is read in
   * scope `current`, given the position `e` of its first "=" (|stmt| when there
   * is none) and the nearest class scope `cls`: `self.NAME = ...` records NAME
   * in that class, any other single target is recorded in `current`, several
   * targets record nothing.
   */
  function Recorded(scopes: seq<Scope>, current: nat, stmt: seq<Token>, e: nat, cls: Option<nat>, host: Host): (r: Effect)
    requires WellFormedArena(scopes) && current < |scopes| && stmt != [] && e <= |stmt|
    requires cls.Some? ==> cls.value < |scopes|
    ensures WellFormedArena(r.scopes) && |scopes| <= |r.scopes|
    ensures r.halt.None? || r.halt.value.Crash?
  {
    var member := stmt[0].text == "self";
    if e == |stmt| then
      Effect(None, scopes)
    else if member && cls.None? then
      Effect(if scopes[current].parent.None? then Some(Crash(NoParentScope)) else None, scopes)
    else
      var lv := Drop(stmt[..e], {","});
      var rv := Drop(stmt[e + 1..], {","});
      var target := if member then cls.value else current;
      if !member && |lv| != 1 then
        Effect(None, scopes)
      else if member && |lv| < 3 then
        Effect(Some(Crash(NoMemberName)), scopes)
      else
        var name := if member then lv[2].text else lv[0].text;
        if rv == [] then
          Effect(Some(Crash(EmptyRightHandSide)), AddVariable(scopes, target, name))
        else
          Effect(None, Assigned(scopes, target, name, InferCatalog(rv[0]), current, host))
  }

  /**
   * What `_parse_statement` does with the statement `stmt` read in scope
   * `current`; the class scope is looked up only for an assignment to `self`.
   */
  function Assignment(scopes: seq<Scope>, current: nat, stmt: seq<Token>, host: Host): (r: Effect)
    requires WellFormedArena(scopes) && current < |scopes| && stmt != []
  {
    var e := FirstOf(stmt, "=");
    var cls := if e < |stmt| && stmt[0].text == "self" then NearestOfKind(scopes, current, Class) else None;
    Recorded(scopes, current, stmt, e, cls, host)
  }

  /**
   * The cases of `_parse_statement` once the statement is read, with `lv` the
   * tokens before its first "=" and `rv` those after it, commas left out:
   * without "=" nothing happens; any other first token than `self` records a
   * single target in the current scope and nothing for several targets;
   * `self.NAME` records NAME (the third token) in the nearest class scope,
   * and outside any class records nothing, crashing exactly at module level.
   * A recorded target with nothing after "=" crashes once it is a variable.
   */
  lemma AssignmentCases(scopes: seq<Scope>, current: nat, stmt: seq<Token>, host: Host)
    requires WellFormedArena(scopes) && current < |scopes| && stmt != []
    ensures var r := Assignment(scopes, current, stmt, host);
            var e := FirstOf(stmt, "=");
            var lv := Drop(stmt[..e], {","});
            var rv := if e < |stmt| then Drop(stmt[e + 1..], {","}) else [];
            var cls := NearestOfKind(scopes, current, Class);
            && (e == |stmt| ==> r == Effect(None, scopes))
            && (e < |stmt| && stmt[0].text != "self" ==>
                  r == if |lv| != 1 then Effect(None, scopes)
                       else if rv == [] then Effect(Some(Crash(EmptyRightHandSide)), AddVariable(scopes, current, lv[0].text))
                       else Effect(None, Assigned(scopes, current, lv[0].text, InferCatalog(rv[0]), current, host)))
            && (e < |stmt| && stmt[0].text == "self" && cls.None? ==>
                  r.scopes == scopes && (r.halt.Some? <==> scopes[current].parent.None?))
            && (e < |stmt| && stmt[0].text == "self" && cls.Some? ==>
                  r == if |lv| < 3 then Effect(Some(Crash(NoMemberName)), scopes)
                       else if rv == [] then Effect(Some(Crash(EmptyRightHandSide)), AddVariable(scopes, cls.value, lv[2].text))
                       else Effect(None, Assigned(scopes, cls.value, lv[2].text, InferCatalog(rv[0]), current, host)))
  {
  }

  /** A statement only ever adds to the arena. */
  lemma AssignmentGrows(scopes: seq<Scope>, current: nat, stmt: seq<Token>, host: Host)
    requires WellFormedArena(scopes) && current < |scopes| && stmt != []
    ensures Grows(scopes, Assignment(scopes, current, stmt, host).scopes)
  {
    var e := FirstOf(stmt, "=");
    var cls := if e < |stmt| && stmt[0].text == "self" then NearestOfKind(scopes, current, Class) else None;
    RecordedGrows(scopes, current, stmt, e, cls, host);
  }

  /** Recording an assignment only ever adds to the arena. */
  lemma RecordedGrows(scopes: seq<Scope>, current: nat, stmt: seq<Token>, e: nat, cls: Option<nat>, host: Host)
    requires WellFormedArena(scopes) && current < |scopes| && stmt != [] && e <= |stmt|
    requires cls.Some? ==> cls.value < |scopes|
    ensures Grows(scopes, Recorded(scopes, current, stmt, e, cls, host).scopes)
  {
    var member := stmt[0].text == "self";
    if e == |stmt| || (member && cls.None?) {
      return;
    }
    var lv := Drop(stmt[..e], {","});
    var rv := Drop(stmt[e + 1..], {","});
    var target := if member then cls.value else current;
    if (!member && |lv| != 1) || (member && |lv| < 3) {
      return;
    }
    var name := if member then lv[2].text else lv[0].text;
    if rv == [] {
      ArenaUpdatesGrow(scopes, host, target, name, target, ObjectCatalog);
    } else {
      AssignedRecords(scopes, target, name, InferCatalog(rv[0]), current, host);
    }
  }

  /**
   * Where the scan of `_parse_with` for "as" stops when started at `from`: the
   * target name after "as" (None when a NEWLINE comes first, or right after
   * "as") and the position after the last token read; None when the input ends
   * first.
   */
  function WithScan(toks: seq<Token>, from: nat): (r: Option<(Option<string>, nat)>)
    requires from <= |toks|
    ensures r.Some? ==> from < r.value.1 <= |toks|
    decreases |toks| - from
  {
    if from == |toks| then None
    else if toks[from].kind == Newline then Some((None, from + 1))
    else if toks[from].text == "as" then
      if from + 1 == |toks| then None
      else if toks[from + 1].kind == Newline then Some((None, from + 2))
      else Some((Some(toks[from + 1].text), from + 2))
    else WithScan(toks, from + 1)
  }

  /** The first NEWLINE or "as" token at or after `from`, or |toks| when there is none. */
  function WithStop(toks: seq<Token>, from: nat): (k: nat)
    requires from <= |toks|
    ensures from <= k <= |toks|
    ensures forall i :: from <= i < k ==> toks[i].kind != Newline && toks[i].text != "as"
    ensures k < |toks| ==> toks[k].kind == Newline || toks[k].text == "as"
    decreases |toks| - from
  {
    if from == |toks| || toks[from].kind == Newline || toks[from].text == "as" then from else WithStop(toks, from + 1)
  }

  /**
   * The scan of `_parse_with` looks only at the first NEWLINE or "as": a name
   * is recorded exactly when that token is "as" and another token that is not
   * a NEWLINE follows it, and the name is that token's text.
   */
  lemma {:induction false} WithScanStopsAtFirst(toks: seq<Token>, from: nat)
    requires from <= |toks|
    ensures var k := WithStop(toks, from);
            WithScan(toks, from) ==
              if k == |toks| then None
              else if toks[k].kind == Newline then Some((None, k + 1))
              else if k + 1 == |toks| then None
              else if toks[k + 1].kind == Newline then Some((None, k + 2))
              else Some((Some(toks[k + 1].text), k + 2))
    decreases |toks| - from
  {
    if from < |toks| && toks[from].kind != Newline && toks[from].text != "as" {
      WithScanStopsAtFirst(toks, from + 1);
    }
  }

  /** The branch of `_do_parse` a statement's first token selects. */
  datatype Handler =
    | SkipToEnd     // comment, string, ignored keyword or other keyword: `_parse_to_end()`
    | OpenClass     // "class": push True, `_parse_class()`
    | OpenDef       // "def": push True, `_parse_method()`
    | OpenBlock     // a keyword whose block stays in the enclosing scope: push whether it closes on its line
    | Simple        // any other non-blank token: `_parse_statement()`
    | Nothing       // a blank token (NEWLINE, INDENT, ...)

  /** The `if`/`elif` chain of `_do_parse`, first match wins. */
  function HandlerFor(tok: Token, host: Host): Handler {
    if tok.text == "#" || tok.kind == Comment || tok.kind == Str then SkipToEnd
    else if tok.text == "class" then OpenClass
    else if tok.text == "def" then OpenDef
    else if tok.text in InheritScopeKeywords then OpenBlock
    else if tok.text in IgnoredKeywords || tok.text in host.keywords then SkipToEnd
    else if Strip(tok.text) != [] then Simple
    else Nothing
  }

  // ---------------------------------------------------------------------------
  // The statement loop on values
  // ---------------------------------------------------------------------------

  /** What the parser keeps between statements: tokens read, the arena, the current scope and the dedent flags. */
  datatype ParseState = ParseState(pos: nat, scopes: seq<Scope>, current: nat, dedentStack: seq<bool>)

  /** The state a parse starts from: nothing read, only the global scope, no dedent flags. */
  function Start(host: Host): (st: ParseState)
    ensures st.pos == 0 && st.scopes == [GlobalScope(host)] && st.current == 0 && st.dedentStack == []
    ensures WellFormedArena(st.scopes)
  {
    ParseState(0, [GlobalScope(host)], 0, [])
  }

  /** A state a handler can run from. */
  predicate Ready(input: TokenStream, st: ParseState) {
    WellFormedArena(st.scopes) && st.current < |st.scopes| && st.pos <= |input.tokens|
  }

  /** How a handler ends: the exception it raised, if any, and the state it leaves. */
  datatype Outcome = Outcome(halt: Option<Stop>, st: ParseState)

  /** A handler stops the loop only by crashing or by reaching the end of the token stream. */
  predicate StopsProperly(input: TokenStream, r: Outcome) {
    r.halt.Some? ==> r.halt.value.Crash? || (r.halt.value == EndOf(input) && r.st.pos == |input.tokens|)
  }

  /** A handler moves forward from a ready state to a ready state and never shrinks the arena. */
  predicate Advances(input: TokenStream, st: ParseState, r: Outcome) {
    Ready(input, r.st) && st.pos <= r.st.pos && |st.scopes| <= |r.st.scopes| && StopsProperly(input, r)
  }

  /** A statement that is skipped: reading resumes after its terminator. */
  function Skipped(input: TokenStream, st: ParseState): (r: Outcome)
    requires Ready(input, st)
    ensures Advances(input, st, r)
  {
    match StatementAt(input.tokens, st.pos)
    case None => Outcome(Some(EndOf(input)), st.(pos := |input.tokens|))
    case Some(s) => Outcome(None, st.(pos := s.end + 1))
  }

  /** A block keyword whose body stays in the current scope: the statement is skipped and whether it closes on its own line is pushed. */
  function BlockOpened(input: TokenStream, st: ParseState): (r: Outcome)
    requires Ready(input, st)
    ensures Advances(input, st, r)
  {
    match StatementAt(input.tokens, st.pos)
    case None => Outcome(Some(EndOf(input)), st.(pos := |input.tokens|))
    case Some(s) => Outcome(None, st.(pos := s.end + 1, dedentStack := st.dedentStack + [ClosesOnSameLine(s.kept)]))
  }

  /** After "class" or "def" and the name token: the scope that name declares in the current one, made current. */
  function Opened(input: TokenStream, st: ParseState, kind: ScopeKind): (r: ParseState)
    requires Ready(input, st) && st.pos < |input.tokens| && kind != Module
    ensures Ready(input, r) && r.scopes[r.current].parent == Some(st.current)
  {
    ParseState(st.pos + 1, Declare(st.scopes, st.current, input.tokens[st.pos].text, kind), |st.scopes|, st.dedentStack)
  }

  /**
   * A class header `hdr` applied to the class scope that is current: names
   * listed in a leading "(...)" become its bases, and a body on the header's
   * line pops the top dedent flag, going back to the declaring scope when that
   * flag is set.
   */
  function WithHeader(st: ParseState, hdr: seq<Token>): (r: ParseState)
    requires WellFormedArena(st.scopes) && st.current < |st.scopes| && st.dedentStack != []
    requires st.scopes[st.current].parent.Some?
    ensures WellFormedArena(r.scopes) && r.current < |r.scopes| && r.pos == st.pos && |r.scopes| == |st.scopes|
  {
    var scopes := SetBases(st.scopes, st.current, ClassBases(hdr));
    var top := |st.dedentStack| - 1;
    if OneLineBody(ClassRest(hdr)) then
      var back := if st.dedentStack[top] then st.scopes[st.current].parent.value else st.current;
      ParseState(st.pos, scopes, back, st.dedentStack[..top])
    else
      st.(scopes := scopes)
  }

  /** The rest of `_parse_class` once the class scope is current: the rest of the statement is the header. */
  function ClassHeaderRead(input: TokenStream, st: ParseState): (r: Outcome)
    requires Ready(input, st) && st.dedentStack != [] && st.scopes[st.current].parent.Some?
    ensures Advances(input, st, r)
  {
    match StatementAt(input.tokens, st.pos)
    case None => Outcome(Some(EndOf(input)), st.(pos := |input.tokens|))
    case Some(Statement(hdr, end)) => Outcome(None, WithHeader(st.(pos := end + 1), hdr))
  }

  /** `_parse_class` from `st`: the next token names the class, the rest of the statement is its header. */
  function ClassParsed(input: TokenStream, st: ParseState): (r: Outcome)
    requires Ready(input, st) && st.dedentStack != []
    ensures Advances(input, st, r)
  {
    if st.pos == |input.tokens| then Outcome(Some(EndOf(input)), st)
    else ClassHeaderRead(input, Opened(input, st, Class))
  }

  /**
   * The rest of `_parse_method` once the method scope is current: the header's
   * tokens without "(", ",", ")" and ":" are its parameters, the first bound
   * to the nearest class scope when there is one.
   */
  function ParamsRead(input: TokenStream, host: Host, st: ParseState): (r: Outcome)
    requires Ready(input, st)
    ensures Advances(input, st, r)
  {
    match StatementAt(input.tokens, st.pos)
    case None => Outcome(Some(EndOf(input)), st.(pos := |input.tokens|))
    case Some(Statement(hdr, end)) =>
      var ps := Drop(hdr, HeaderPunctuation);
      var cls := NearestOfKind(st.scopes, st.current, Class);
      DefParamsWellFormed(st.scopes, st.current, ps, cls, host);
      Outcome(None, st.(pos := end + 1, scopes := DefParams(st.scopes, st.current, ps, cls, host)))
  }

  /** `_parse_method` from `st`: the next token names the method, the rest of the statement is its header. */
  function MethodParsed(input: TokenStream, host: Host, st: ParseState): (r: Outcome)
    requires Ready(input, st)
    ensures Advances(input, st, r)
  {
    if st.pos == |input.tokens| then Outcome(Some(EndOf(input)), st)
    else ParamsRead(input, host, Opened(input, st, Method))
  }

  /** `_parse_statement` from `st` for a statement whose first token is `lvalue`. */
  function StatementParsed(input: TokenStream, host: Host, st: ParseState, lvalue: Token): (r: Outcome)
    requires Ready(input, st)
    ensures Advances(input, st, r)
  {
    match StatementAt(input.tokens, st.pos)
    case None => Outcome(Some(EndOf(input)), st.(pos := |input.tokens|))
    case Some(s) =>
      var e := Assignment(st.scopes, st.current, [lvalue] + s.kept, host);
      Outcome(e.halt, st.(pos := s.end + 1, scopes := e.scopes))
  }

  /** One pass of the `_do_parse` loop once the statement's first token `tok` is read: the handler it selects. */
  function Step(input: TokenStream, host: Host, st: ParseState, tok: Token): (r: Outcome)
    requires Ready(input, st)
    ensures Advances(input, st, r)
  {
    match HandlerFor(tok, host)
    case SkipToEnd => Skipped(input, st)
    case OpenClass => ClassParsed(input, st.(dedentStack := st.dedentStack + [true]))
    case OpenDef => MethodParsed(input, host, st.(dedentStack := st.dedentStack + [true]))
    case OpenBlock => BlockOpened(input, st)
    case Simple => StatementParsed(input, host, st, tok)
    case Nothing => Outcome(None, st)
  }

  /** The line counter and the current scope as they stood when a statement's first token had been read. */
  datatype Capture = Capture(line: int, scope: nat)

  /** How the loop ends, the state it ends in and what it saw at each statement start, in order. */
  datatype Run = Run(stop: Stop, st: ParseState, captures: seq<Capture>)

  /**
   * The `_do_parse` loop from `st`, with the line counter kept equal to the
   * number of "\n" tokens read from the start of the stream.
   */
  function ParseRun(input: TokenStream, host: Host, st: ParseState): (r: Run)
    requires Ready(input, st)
    ensures Ready(input, r.st) && |st.scopes| <= |r.st.scopes|
    ensures r.stop.Crash? || (r.stop == EndOf(input) && r.st.pos == |input.tokens|)
    decreases |input.tokens| - st.pos
  {
    if st.pos == |input.tokens| then Run(EndOf(input), st, [])
    else
      var here := Capture(Lines(input.tokens, 0, st.pos + 1), st.current);
      var next := Step(input, host, st.(pos := st.pos + 1), input.tokens[st.pos]);
      if next.halt.Some? then Run(next.halt.value, next.st, [here])
      else
        var rest := ParseRun(input, host, next.st);
        Run(rest.stop, rest.st, [here] + rest.captures)
  }

  /** A run whose first statements recorded `seen` before `r` went on. */
  function Prepend(seen: seq<Capture>, r: Run): Run {
    Run(r.stop, r.st, seen + r.captures)
  }

  /** One statement of the loop: the capture at its start, then the handler, then the rest of the loop unless it stopped. */
  lemma RunStep(input: TokenStream, host: Host, st: ParseState)
    requires Ready(input, st) && st.pos < |input.tokens|
    ensures var here := Capture(Lines(input.tokens, 0, st.pos + 1), st.current);
            var next := Step(input, host, st.(pos := st.pos + 1), input.tokens[st.pos]);
            ParseRun(input, host, st) ==
              if next.halt.Some? then Run(next.halt.value, next.st, [here])
              else Prepend([here], ParseRun(input, host, next.st))
  {
  }

  /**
   * The loop's progress after one more statement: a run known to be `seen`
   * followed by the run from `st` is `seen`, this statement's capture, and
   * then either the handler's stop or the run after it.
   */
  lemma RunAdvance(input: TokenStream, host: Host, whole: Run, seen: seq<Capture>, st: ParseState, next: Outcome)
    requires Ready(input, st) && st.pos < |input.tokens|
    requires whole == Prepend(seen, ParseRun(input, host, st))
    requires next == Step(input, host, st.(pos := st.pos + 1), input.tokens[st.pos])
    ensures var seen' := seen + [Capture(Lines(input.tokens, 0, st.pos + 1), st.current)];
            && (next.halt.Some? ==> whole == Run(next.halt.value, next.st, seen'))
            && (next.halt.None? ==> whole == Prepend(seen', ParseRun(input, host, next.st)))
  {
    RunStep(input, host, st);
    var here := Capture(Lines(input.tokens, 0, st.pos + 1), st.current);
    if next.halt.None? {
      PrependTwice(seen, [here], ParseRun(input, host, next.st));
    }
  }

  /** Recording `a` and then `b` is recording `a + b`. */
  lemma PrependTwice(a: seq<Capture>, b: seq<Capture>, r: Run)
    ensures Prepend(a, Prepend(b, r)) == Prepend(a + b, r)
  {
    assert a + (b + r.captures) == (a + b) + r.captures;
  }

  /**
   * What one pass of the loop does to its bookkeeping: the statement's capture
   * is added, the active scope follows it, and the rest of the run continues
   * from the handler's state.
   */
  lemma LoopStep(input: TokenStream, host: Host, whole: Run, seen: seq<Capture>, st: ParseState, next: Outcome,
                 line: Option<int>, initial: nat, active: nat, active': nat)
    requires Ready(input, st) && st.pos < |input.tokens|
    requires whole == Prepend(seen, ParseRun(input, host, st)) && active == ActiveAfter(seen, line, initial)
    requires next == Step(input, host, st.(pos := st.pos + 1), input.tokens[st.pos])
    requires active' == if line == Some(Lines(input.tokens, 0, st.pos + 1)) then st.current else active
    ensures var seen' := seen + [Capture(Lines(input.tokens, 0, st.pos + 1), st.current)];
            && active' == ActiveAfter(seen', line, initial)
            && (next.halt.Some? ==> whole == Run(next.halt.value, next.st, seen'))
            && (next.halt.None? ==> whole == Prepend(seen', ParseRun(input, host, next.st)))
  {
    RunAdvance(input, host, whole, seen, st, next);
    var here := Capture(Lines(input.tokens, 0, st.pos + 1), st.current);
    assert (seen + [here])[..|seen|] == seen;
  }

  /** The scope recorded last at `line`, if any. */
  function LastCapture(captures: seq<Capture>, line: Option<int>): Option<nat> {
    if captures == [] then None
    else if line == Some(captures[|captures| - 1].line) then Some(captures[|captures| - 1].scope)
    else LastCapture(captures[..|captures| - 1], line)
  }

  /** The active scope once `captures` are recorded, starting from `initial`: the scope recorded last at `line`, if any. */
  function ActiveAfter(captures: seq<Capture>, line: Option<int>, initial: nat): nat {
    match LastCapture(captures, line)
    case Some(s) => s
    case None => initial
  }

  /** `get_active_scope()` after a parse: the scope current when the target line was last reached, or the global scope. */
  function ActiveOf(r: Run, line: Option<int>): nat {
    ActiveAfter(r.captures, line, 0)
  }

  /**
   * LastCapture finds nothing exactly when no capture is at `line`, and
   * otherwise gives the scope of a capture at `line` after which none is.
   */
  lemma {:induction false} LastCaptureIsLast(captures: seq<Capture>, line: Option<int>)
    ensures LastCapture(captures, line).None? <==> forall i :: 0 <= i < |captures| ==> line != Some(captures[i].line)
    ensures LastCapture(captures, line).Some? ==>
              exists i :: 0 <= i < |captures| && line == Some(captures[i].line)
                          && LastCapture(captures, line).value == captures[i].scope
                          && forall j :: i < j < |captures| ==> line != Some(captures[j].line)
    decreases |captures|
  {
    if captures == [] {
      return;
    }
    var n := |captures| - 1;
    var front := captures[..n];
    if line == Some(captures[n].line) {
      assert LastCapture(captures, line) == Some(captures[n].scope);
      return;
    }
    assert LastCapture(captures, line) == LastCapture(front, line);
    LastCaptureIsLast(front, line);
    if LastCapture(front, line).Some? {
      var i :| 0 <= i < |front| && line == Some(front[i].line)
               && LastCapture(front, line).value == front[i].scope
               && forall j :: i < j < |front| ==> line != Some(front[j].line);
      assert captures[i] == front[i];
      forall j | i < j < |captures| ensures line != Some(captures[j].line) {
        if j < n {
          assert captures[j] == front[j];
        }
      }
    } else {
      forall k | 0 <= k < |captures| ensures line != Some(captures[k].line) {
        if k < n {
          assert captures[k] == front[k];
        }
      }
    }
  }

  /** A class header only adds to the arena: the bases go to the new scope. */
  lemma ClassGrows(input: TokenStream, st: ParseState)
    requires Ready(input, st) && st.dedentStack != []
    ensures Grows(st.scopes, ClassParsed(input, st).st.scopes)
  {
    if st.pos < |input.tokens| {
      DeclareAdds(st.scopes, st.current, input.tokens[st.pos].text, Class);
    }
  }

  /** A def header only adds to the arena: the parameters go to the new scope and to fresh scopes after it. */
  lemma MethodGrows(input: TokenStream, host: Host, st: ParseState)
    requires Ready(input, st)
    ensures Grows(st.scopes, MethodParsed(input, host, st).st.scopes)
  {
    if st.pos < |input.tokens| {
      var declared := Opened(input, st, Method);
      DeclareAdds(st.scopes, st.current, input.tokens[st.pos].text, Method);
      match StatementAt(input.tokens, declared.pos)
      case None =>
      case Some(Statement(hdr, end)) =>
        DefParamsRecords(declared.scopes, declared.current, Drop(hdr, HeaderPunctuation), NearestOfKind(declared.scopes, declared.current, Class), host);
    }
  }

  /** No statement removes a name, a child or a scope, or renames or moves a scope. */
  lemma StepGrows(input: TokenStream, host: Host, st: ParseState, tok: Token)
    requires Ready(input, st)
    ensures Grows(st.scopes, Step(input, host, st, tok).st.scopes)
  {
    match HandlerFor(tok, host)
    case OpenClass => ClassGrows(input, st.(dedentStack := st.dedentStack + [true]));
    case OpenDef => MethodGrows(input, host, st.(dedentStack := st.dedentStack + [true]));
    case Simple =>
      if StatementAt(input.tokens, st.pos).Some? {
        AssignmentGrows(st.scopes, st.current, [tok] + StatementAt(input.tokens, st.pos).value.kept, host);
      }
    case _ =>
  }

  /** The whole loop only adds to the arena it starts from. */
  lemma {:induction false} RunGrows(input: TokenStream, host: Host, st: ParseState)
    requires Ready(input, st)
    ensures Grows(st.scopes, ParseRun(input, host, st).st.scopes)
    decreases |input.tokens| - st.pos
  {
    if st.pos < |input.tokens| {
      var next := Step(input, host, st.(pos := st.pos + 1), input.tokens[st.pos]);
      StepGrows(input, host, st.(pos := st.pos + 1), input.tokens[st.pos]);
      if next.halt.None? {
        RunGrows(input, host, next.st);
        GrowsTransitive(st.scopes, next.st.scopes, ParseRun(input, host, next.st).st.scopes);
      }
    }
  }

  /**
   * Whatever the buffer holds, the parse keeps the global scope at index 0,
   * still a module scope with every builtin function and type.
   */
  lemma ParseKeepsBuiltins(input: TokenStream, host: Host)
    ensures var r := ParseRun(input, host, Start(host));
            && Grows([GlobalScope(host)], r.st.scopes)
            && r.st.scopes[0].kind == Module && r.st.scopes[0].name == "__global__"
            && host.builtinFunctions <= r.st.scopes[0].methods
            && host.builtinTypes <= r.st.scopes[0].types
  {
    RunGrows(input, host, Start(host));
    var r := ParseRun(input, host, Start(host));
    assert ScopeGrows(GlobalScope(host), r.st.scopes[0]);
  }

  class FileParser {
    const host: Host
    const input: TokenStream
    /** The line whose scope the completer asks for (`current_line`). */
    const currentLine: Option<int>

    /** How many tokens the generator has handed out. */
    var pos: nat
    var lineNo: int
    var scopes: seq<Scope>
    var current: nat
    var active: nat
    var dedentStack: seq<bool>
    /** How the parse run by the constructor ended. */
    var stop: Stop

    /** The arena is well formed and the current and active scopes are in it. */
    ghost predicate Valid()
      reads this`scopes, this`current, this`active
    {
      && WellFormedArena(scopes)
      && current < |scopes| && active < |scopes|
      && (currentLine.None? ==> active == 0)
    }

    /** The state the handlers read and write, as a value. */
    function State(): ParseState
      reads this`pos, this`scopes, this`current, this`dedentStack
    {
      ParseState(pos, scopes, current, dedentStack)
    }

    /** `FileParser(file_contents, current_line)`: builds the global scope and parses the whole buffer. */
    constructor (host: Host, input: TokenStream, currentLine: Option<int>)
      ensures Valid()
      ensures this.host == host && this.input == input && this.currentLine == currentLine
      ensures var r := ParseRun(input, host, Start(host));
              stop == r.stop && State() == r.st && active == ActiveOf(r, currentLine)
      ensures stop.Crash? || (pos == |input.tokens| && stop == EndOf(input))
      ensures Grows([GlobalScope(host)], scopes)
      ensures host.builtinFunctions <= scopes[0].methods && host.builtinTypes <= scopes[0].types
    {
      this.host := host;
      this.input := input;
      this.currentLine := currentLine;
      pos := 0;
      lineNo := 0;
      scopes := [GlobalScope(host)];
      current := 0;
      active := 0;
      dedentStack := [];
      stop := EndOfInput;
      new;
      stop := DoParse();
      ParseKeepsBuiltins(input, host);
    }

    /** The scope current at the target line, or the global scope. */
    function ActiveScope(): (r: nat)
      reads this
      requires Valid()
      ensures r < |scopes|
      ensures currentLine.None? ==> r == 0
    {
      active
    }

    /** `self._gen.next()`, counting a line when the token's text is "\n". */
    method NextToken() returns (tok: Token, halt: Option<Stop>)
      requires pos <= |input.tokens|
      modifies this`pos, this`lineNo
      ensures old(pos) <= pos <= |input.tokens|
      ensures old(pos) < |input.tokens| ==>
                halt == None && tok == input.tokens[old(pos)] && pos == old(pos) + 1
                && lineNo == old(lineNo) + (if tok.text == "\n" then 1 else 0)
      ensures old(pos) == |input.tokens| ==> halt == Some(EndOf(input)) && pos == old(pos) && lineNo == old(lineNo)
      ensures lineNo == old(lineNo) + Lines(input.tokens, old(pos), pos)
    {
      if pos == |input.tokens| {
        tok := Token(EndMarker, "");
        halt := Some(EndOf(input));
        return;
      }
      tok := input.tokens[pos];
      halt := None;
      pos := pos + 1;
      if tok.text == "\n" {
        lineNo := lineNo + 1;
      }
    }

    /**
     * `_parse_to_end`: reads up to and including the next statement-ending
     * token and returns what came before the first comment.
     */
    method ParseToEnd() returns (ts: seq<Token>, halt: Option<Stop>)
      requires pos <= |input.tokens|
      modifies this`pos, this`lineNo
      ensures old(pos) <= pos <= |input.tokens|
      ensures match StatementAt(input.tokens, old(pos))
        case Some(st) => halt == None && ts == st.kept && pos == st.end + 1
        case None => halt == Some(EndOf(input)) && pos == |input.tokens|
      ensures lineNo == old(lineNo) + Lines(input.tokens, old(pos), pos)
    {
      ts := [];
      var ignoreRest := false;
      ghost var start := pos;
      if StatementAt(input.tokens, pos).Some? {
        assert [] + StatementAt(input.tokens, pos).value.kept == StatementAt(input.tokens, pos).value.kept;
      }
      while true
        invariant start <= pos <= |input.tokens|
        invariant lineNo == old(lineNo) + Lines(input.tokens, start, pos)
        invariant StatementAt(input.tokens, start) == Resume(ts, ignoreRest, StatementAt(input.tokens, pos))
        decreases |input.tokens| - pos
      {
        if pos < |input.tokens| {
          ResumeStep(input.tokens, pos, ts, ignoreRest);
        }
        var tok;
        tok, halt := NextToken();
        if halt.Some? {
          return;
        }
        if tok.kind == Comment {
          ignoreRest := true;
        }
        if !ignoreRest {
          ts := ts + [tok];
        }
        if IsTerminator(tok) {
          break;
        }
      }
    }

    /** `_find_parent_scope_of_type`: walks up from the current scope while the kind differs and a parent exists. */
    method FindParentScopeOfType(t: ScopeKind) returns (r: Option<nat>)
      requires Valid()
      ensures r == NearestOfKind(scopes, current, t)
    {
      var cur: nat := current;
      while scopes[cur].kind != t && scopes[cur].parent.Some?
        invariant cur < |scopes|
        invariant NearestOfKind(scopes, cur, t) == NearestOfKind(scopes, current, t)
        decreases cur
      {
        cur := scopes[cur].parent.value;
      }
      if scopes[cur].kind != t {
        return None;
      }
      return Some(cur);
    }

    /** `_dedent`: pops the stack and, when the popped flag is set, moves to the parent scope. */
    method Dedent()
      requires Valid() && |dedentStack| > 0
      modifies this`dedentStack, this`current
      ensures Valid()
      ensures dedentStack == old(dedentStack[..|dedentStack| - 1])
      ensures current == if old(dedentStack[|dedentStack| - 1]) && old(scopes[current].parent.Some?)
                         then old(scopes[current].parent.value) else old(current)
    {
      var toDedent := dedentStack[|dedentStack| - 1];
      dedentStack := dedentStack[..|dedentStack| - 1];
      if toDedent && scopes[current].parent.Some? {
        current := scopes[current].parent.value;
      }
    }

    /**
     * The opening `_parse_class` and `_parse_method` share: the next token names
     * a new scope of `kind` under the current one, recorded there (as a type or
     * a method) and as its child, and the new scope becomes current.
     */
    method OpenScope(kind: ScopeKind) returns (halt: Option<Stop>)
      requires Valid() && pos <= |input.tokens| && kind != Module
      modifies this`pos, this`lineNo, this`scopes, this`current
      ensures Valid()
      ensures old(pos) == |input.tokens| ==> halt == Some(EndOf(input)) && State() == old(State())
      ensures old(pos) < |input.tokens| ==> halt == None && State() == Opened(input, old(State()), kind)
      ensures lineNo == old(lineNo) + Lines(input.tokens, old(pos), pos)
    {
      var tok;
      tok, halt := NextToken();
      if halt.Some? {
        return;
      }
      var k := |scopes|;
      scopes := Declare(scopes, current, tok.text, kind);
      current := k;
    }

    /**
     * `_parse_class`, after "class": the next token names a new CLASS scope,
     * recorded as a type and a child of the current scope and made current;
     * names listed in a leading "(...)" become its bases; a body on the header's
     * line pops the dedent flag pushed for this class and returns to the parent.
     */
    method ParseClass() returns (halt: Option<Stop>)
      requires Valid() && pos <= |input.tokens| && |dedentStack| > 0
      modifies this`pos, this`lineNo, this`scopes, this`current, this`dedentStack
      ensures Valid()
      ensures Outcome(halt, State()) == ClassParsed(input, old(State()))
      ensures lineNo == old(lineNo) + Lines(input.tokens, old(pos), pos)
    {
      halt := OpenScope(Class);
      if halt.Some? {
        return;
      }
      ghost var p := pos;
      halt := ClassHeader();
      LinesAdd(input.tokens, old(pos), p, pos);
    }

    /**
     * The rest of `_parse_class` once the class scope is current: reads the
     * header; a leading "(" opens the base list, and a ":" followed by more
     * than a line end means the body is on this line, so the class is left
     * again at once.
     */
    method ClassHeader() returns (halt: Option<Stop>)
      requires Valid() && pos <= |input.tokens| && |dedentStack| > 0 && scopes[current].parent.Some?
      modifies this`pos, this`lineNo, this`scopes, this`current, this`dedentStack
      ensures Valid()
      ensures Outcome(halt, State()) == ClassHeaderRead(input, old(State()))
      ensures lineNo == old(lineNo) + Lines(input.tokens, old(pos), pos)
    {
      var hdr;
      hdr, halt := ParseToEnd();
      if halt.Some? {
        return;
      }
      assert StatementAt(input.tokens, old(pos)) == Some(Statement(hdr, pos - 1));
      ApplyClassHeader(hdr);
    }

    /** The header handling of `_parse_class`, on the header tokens `hdr`. */
    method ApplyClassHeader(hdr: seq<Token>)
      requires Valid() && |dedentStack| > 0 && scopes[current].parent.Some?
      modifies this`scopes, this`current, this`dedentStack
      ensures Valid()
      ensures State() == WithHeader(old(State()), hdr)
    {
      var rest := hdr;
      var bases := {};
      if hdr != [] && hdr[0].text == "(" {
        bases, rest := SplitBases(hdr[1..]);
      }
      assert bases == ClassBases(hdr) && rest == ClassRest(hdr);
      ghost var st0 := old(State());
      scopes := SetBases(scopes, current, bases);
      assert State() == st0.(scopes := scopes);
      if rest != [] && rest[0].text == ":" {
        if |rest| > 1 && rest[1].text != "\n" {
          assert OneLineBody(ClassRest(hdr));
          Dedent();
        }
      }
    }

    /**
     * `_parse_method`, after "def": the next token names a new METHOD scope,
     * recorded as a method and a child of the current scope and made current.
     * Of the header's remaining tokens (without "(", ",", ")" and ":"), the first
     * is bound to the nearest enclosing class scope when there is one, and every
     * other one to a fresh `object` catalog scope.
     */
    method ParseMethod() returns (halt: Option<Stop>)
      requires Valid() && pos <= |input.tokens|
      modifies this`pos, this`lineNo, this`scopes, this`current
      ensures Valid()
      ensures Outcome(halt, State()) == MethodParsed(input, host, old(State()))
      ensures lineNo == old(lineNo) + Lines(input.tokens, old(pos), pos)
    {
      halt := OpenScope(Method);
      if halt.Some? {
        return;
      }
      ghost var p := pos;
      halt := MethodHeader();
      LinesAdd(input.tokens, old(pos), p, pos);
    }

    /** The rest of `_parse_method` once the method scope is current: reads the header and binds its parameters. */
    method MethodHeader() returns (halt: Option<Stop>)
      requires Valid() && pos <= |input.tokens|
      modifies this`pos, this`lineNo, this`scopes
      ensures Valid()
      ensures Outcome(halt, State()) == ParamsRead(input, host, old(State()))
      ensures lineNo == old(lineNo) + Lines(input.tokens, old(pos), pos)
    {
      ghost var st := State();
      var hdr;
      hdr, halt := ParseToEnd();
      if halt.Some? {
        return;
      }
      assert StatementAt(input.tokens, st.pos) == Some(Statement(hdr, pos - 1));
      var ps := Drop(hdr, HeaderPunctuation);
      BindParameters(ps);
      assert State() == st.(pos := pos, scopes := DefParams(st.scopes, st.current, ps, NearestOfKind(st.scopes, st.current, Class), host));
    }

    /**
     * The parameter handling of `_parse_method`: nothing when there are no
     * parameters; otherwise the first is bound to the nearest enclosing class
     * scope when there is one, and the rest go to `BindObjectParams`.
     */
    method BindParameters(ps: seq<Token>)
      requires Valid()
      modifies this`scopes
      ensures Valid()
      ensures scopes == DefParams(old(scopes), current, ps, NearestOfKind(old(scopes), current, Class), host)
    {
      var k := current;
      if ps == [] {
        assert WithObjectParams(scopes, k, scopes[k], [], host) == scopes;
        return;
      }
      var cls := FindParentScopeOfType(Class);
      var others := ps;
      if cls.Some? {
        ghost var s := scopes[k];
        scopes := BindVariable(scopes, k, ps[0].text, cls.value);
        others := ps[1..];
        assert WithObjectParams(scopes, k, scopes[k], others, host) == WithObjectParams(old(scopes), k, scopes[k], others, host);
      }
      BindObjectParams(k, others);
    }

    /**
     * The loop closing `_parse_method`: every parameter in `others` becomes a
     * variable of the current (method) scope bound to a fresh `object` catalog
     * scope under it, appended in order.
     */
    method BindObjectParams(k: nat, others: seq<Token>)
      requires Valid() && k < |scopes|
      modifies this`scopes
      ensures Valid()
      ensures scopes == WithObjectParams(old(scopes), k, old(scopes)[k], others, host)
    {
      ghost var start := scopes[k];
      var i := 0;
      while i < |others|
        invariant 0 <= i <= |others| && Valid()
        invariant scopes == WithObjectParams(old(scopes), k, start, others[..i], host)
      {
        ObjectParamStep(old(scopes), k, start, others, i, host);
        scopes := BindVariable(AddCatalog(scopes, host, ObjectCatalog, k), k, others[i].text, |scopes|);
        i := i + 1;
      }
      assert others[..i] == others;
    }

    /**
     * `_parse_statement`: reads the rest of the statement and, when it holds a
     * "=", records the target of a single-target assignment (or `self.NAME`)
     * with the catalog type its right-hand side suggests.
     */
    method ParseStatement(lvalue: Token) returns (halt: Option<Stop>)
      requires Valid() && pos <= |input.tokens|
      modifies this`pos, this`lineNo, this`scopes
      ensures Valid()
      ensures Outcome(halt, State()) == StatementParsed(input, host, old(State()), lvalue)
      ensures lineNo == old(lineNo) + Lines(input.tokens, old(pos), pos)
    {
      ghost var st0 := State();
      var rest;
      rest, halt := ParseToEnd();
      if halt.Some? {
        return;
      }
      ghost var end := pos - 1;
      assert StatementAt(input.tokens, old(pos)) == Some(Statement(rest, end));
      var stmt := [lvalue] + rest;
      var eq := FindAssign(stmt);
      var cls: Option<nat> := None;
      if eq.Some? && lvalue.text == "self" {
        cls := FindParentScopeOfType(Class);
      }
      var e := if eq.Some? then eq.value else |stmt|;
      assert e == FirstOf(stmt, "=");
      var effect := Recorded(scopes, current, stmt, e, cls, host);
      assert effect == Assignment(st0.scopes, st0.current, stmt, host);
      assert StatementParsed(input, host, st0, lvalue) == Outcome(effect.halt, st0.(pos := pos, scopes := effect.scopes));
      halt, scopes := effect.halt, effect.scopes;
    }

    /**
     * `_do_parse`: the statement loop. Each statement's first token picks the
     * handler; before that, the current scope is captured as the active scope
     * when the line counter equals the target line. Only the end of the token
     * stream (StopIteration) ends the loop normally.
     */
    method DoParse() returns (halt: Stop)
      requires Valid()
      modifies this`pos, this`lineNo, this`scopes, this`current, this`active, this`dedentStack
      ensures Valid()
      ensures var r := ParseRun(input, host, ParseState(0, old(scopes), old(current), []));
              && halt == r.stop && State() == r.st
              && active == ActiveAfter(r.captures, currentLine, old(active))
      ensures lineNo == Lines(input.tokens, 0, pos)
    {
      pos := 0;
      lineNo := 0;
      dedentStack := [];
      assert State() == ParseState(0, old(scopes), old(current), []);
      ghost var whole := ParseRun(input, host, State());
      ghost var seen: seq<Capture> := [];
      assert whole == Prepend(seen, whole);
      while true
        invariant Valid() && pos <= |input.tokens|
        invariant lineNo == Lines(input.tokens, 0, pos)
        invariant whole == Prepend(seen, ParseRun(input, host, State()))
        invariant active == ActiveAfter(seen, currentLine, old(active))
        decreases |input.tokens| - pos
      {
        ghost var before := State();
        ghost var activeBefore := active;
        var h := NextStatement();
        if before.pos < |input.tokens| {
          LoopStep(input, host, whole, seen, before, Outcome(h, State()), currentLine, old(active), activeBefore, active);
          seen := seen + [Capture(Lines(input.tokens, 0, before.pos + 1), before.current)];
        } else {
          assert ParseRun(input, host, before) == Run(EndOf(input), before, []);
          assert seen + [] == seen;
        }
        if h.Some? {
          halt := h.value;
          assert whole == Run(halt, State(), seen);
          return;
        }
      }
    }

    /**
     * One pass of the `_do_parse` loop: the statement's first token is read,
     * the current scope becomes the active one when the line counter equals
     * the target line, and the handler the token selects runs.
     */
    method NextStatement() returns (halt: Option<Stop>)
      requires Valid() && pos <= |input.tokens| && lineNo == Lines(input.tokens, 0, pos)
      modifies this`pos, this`lineNo, this`scopes, this`current, this`active, this`dedentStack
      ensures Valid() && pos <= |input.tokens| && lineNo == Lines(input.tokens, 0, pos)
      ensures old(pos) == |input.tokens| ==>
                halt == Some(EndOf(input)) && State() == old(State()) && active == old(active)
      ensures old(pos) < |input.tokens| ==>
                && Outcome(halt, State()) == Step(input, host, old(State()).(pos := old(pos) + 1), input.tokens[old(pos)])
                && active == if currentLine == Some(Lines(input.tokens, 0, old(pos) + 1)) then old(current) else old(active)
    {
      var tok;
      tok, halt := NextToken();
      if halt.Some? {
        return;
      }
      LinesAdd(input.tokens, 0, old(pos), pos);
      assert lineNo == Lines(input.tokens, 0, old(pos) + 1);
      if currentLine == Some(lineNo) {
        active := current;
      }
      ghost var mid := State();
      assert mid == old(State()).(pos := old(pos) + 1) && tok == input.tokens[old(pos)];
      halt := Dispatch(tok);
      LinesAdd(input.tokens, 0, mid.pos, pos);
    }

    /**
     * The handler `_do_parse` runs for a statement whose first token is `tok`:
     * comments, strings, ignored and other keywords are skipped to the end of
     * the statement; "class" and "def" push a dedent flag and open a scope; a
     * block keyword pushes whether its body is on the same line; any other
     * non-blank token starts a statement.
     */
    method Dispatch(tok: Token) returns (halt: Option<Stop>)
      requires Valid() && pos <= |input.tokens|
      modifies this`pos, this`lineNo, this`scopes, this`current, this`dedentStack
      ensures Valid()
      ensures Outcome(halt, State()) == Step(input, host, old(State()), tok)
      ensures lineNo == old(lineNo) + Lines(input.tokens, old(pos), pos)
    {
      halt := None;
      var ignored: seq<Token>;
      match HandlerFor(tok, host)
      case SkipToEnd =>
        ignored, halt := ParseToEnd();
      case OpenClass =>
        halt := OpenDefinition(Class);
      case OpenDef =>
        halt := OpenDefinition(Method);
      case OpenBlock =>
        var ts;
        ts, halt := ParseToEnd();
        if halt.None? {
          dedentStack := dedentStack + [ClosesOnSameLine(ts)];
        }
      case Simple =>
        halt := ParseStatement(tok);
      case Nothing =>
    }

    /**
     * `_parse_with`, which `_do_parse` never calls ("with" opens a block): reads
     * up to a NEWLINE or the name after "as", records that name as a variable
     * of the current scope, then skips one statement with `_parse_to_end`.
     */
    method ParseWith() returns (halt: Option<Stop>)
      requires Valid() && pos <= |input.tokens|
      modifies this`pos, this`lineNo, this`scopes
      ensures Valid() && old(pos) <= pos <= |input.tokens|
      ensures match WithScan(input.tokens, old(pos))
        case None =>
          halt == Some(EndOf(input)) && pos == |input.tokens| && scopes == old(scopes)
        case Some((name, next)) =>
          && scopes == (if name.Some? then AddVariable(old(scopes), current, name.value) else old(scopes))
          && halt == (if StatementAt(input.tokens, next).None? then Some(EndOf(input)) else None)
          && pos == match StatementAt(input.tokens, next) case None => |input.tokens| case Some(s) => s.end + 1
      ensures lineNo == old(lineNo) + Lines(input.tokens, old(pos), pos)
    {
      halt := ScanWith();
      if halt.Some? {
        return;
      }
      var ignored;
      ghost var p := pos;
      ignored, halt := ParseToEnd();
      LinesAdd(input.tokens, old(pos), p, pos);
    }

    /** The token loop of `_parse_with`: up to the end of the line, or the name after "as". */
    method ScanWith() returns (halt: Option<Stop>)
      requires Valid() && pos <= |input.tokens|
      modifies this`pos, this`lineNo, this`scopes
      ensures Valid() && old(pos) <= pos <= |input.tokens|
      ensures match WithScan(input.tokens, old(pos))
        case None =>
          halt == Some(EndOf(input)) && pos == |input.tokens| && scopes == old(scopes)
        case Some((name, next)) =>
          && halt == None && pos == next
          && scopes == (if name.Some? then AddVariable(old(scopes), current, name.value) else old(scopes))
      ensures lineNo == old(lineNo) + Lines(input.tokens, old(pos), pos)
    {
      while true
        invariant old(pos) <= pos <= |input.tokens| && scopes == old(scopes)
        invariant WithScan(input.tokens, old(pos)) == WithScan(input.tokens, pos)
        invariant lineNo == old(lineNo) + Lines(input.tokens, old(pos), pos)
        decreases |input.tokens| - pos
      {
        var tok;
        ghost var p := pos;
        tok, halt := NextToken();
        LinesAdd(input.tokens, old(pos), p, pos);
        if halt.Some? {
          return;
        }
        if tok.kind == Newline {
          return;
        }
        if tok.text == "as" {
          p := pos;
          tok, halt := NextToken();
          LinesAdd(input.tokens, old(pos), p, pos);
          if halt.Some? || tok.kind == Newline {
            return;
          }
          scopes := AddVariable(scopes, current, tok.text);
          return;
        }
      }
    }

    /** The "class" and "def" branches of `_do_parse`: push a dedent flag set to True, then read the header. */
    method OpenDefinition(kind: ScopeKind) returns (halt: Option<Stop>)
      requires Valid() && pos <= |input.tokens| && kind != Module
      modifies this`pos, this`lineNo, this`scopes, this`current, this`dedentStack
      ensures Valid()
      ensures var pushed := old(State()).(dedentStack := old(dedentStack) + [true]);
              Outcome(halt, State()) == if kind == Class then ClassParsed(input, pushed) else MethodParsed(input, host, pushed)
      ensures lineNo == old(lineNo) + Lines(input.tokens, old(pos), pos)
    {
      dedentStack := dedentStack + [true];
      if kind == Class {
        halt := ParseClass();
      } else {
        halt := ParseMethod();
      }
    }
  }
}
