/**
 * The scope data model: `Scope` nodes kept in an arena (a sequence indexed by
 * position, the global scope at index 0), the builtin type catalog, and the
 * walk up the parent chain.
 */
module Scopes {
  import opened Wrappers
  import opened PyStr

  datatype ScopeKind = Module | Class | Method

  /**
   * One `Scope` object. `parent` and the values of `children` are arena indices;
   * `children` may point back to an ancestor (a method's first parameter maps
   * to its class), so the arena is a graph, not a tree. `inheritedNames` holds
   * the base-class names a class header lists.
   */
  datatype Scope = Scope(
    name: string,
    kind: ScopeKind,
    parent: Option<nat>,
    variables: set<string>,
    methods: set<string>,
    types: set<string>,
    children: map<string, nat>,
    inheritedNames: set<string>)

  /** `Scope(name, kind, parent)` for a class or method scope: no names yet. */
  function NewScope(name: string, kind: ScopeKind, parent: nat): Scope {
    Scope(name, kind, Some(parent), {}, {}, {}, map[], {})
  }

  /**
   * `get_variables() | get_methods() | get_types()`. The getters also visit
   * `inherited_scopes`, but that set only ever holds names, which they skip.
   */
  function Names(s: Scope): set<string> {
    s.variables + s.methods + s.types
  }

  // ---------------------------------------------------------------------------
  // What Python's reflection supplies
  // ---------------------------------------------------------------------------

  /** `dir(T)` for a builtin type T, and which of those attributes are callable. */
  datatype Reflection = Reflection(attrs: seq<string>, callables: set<string>)

  /**
   * The host interpreter: the builtin functions and types of `__builtin__`, the
   * reserved words of `keyword.kwlist`, and the reflection of the six catalog types.
   */
  datatype Host = Host(
    builtinFunctions: set<string>,
    builtinTypes: set<string>,
    keywords: set<string>,
    objectType: Reflection,
    listType: Reflection,
    tupleType: Reflection,
    intType: Reflection,
    strType: Reflection,
    dictType: Reflection)

  /** The module scope `Scope("__global__", MODULE)`, seeded with the builtins. */
  function GlobalScope(host: Host): (s: Scope)
    ensures s.kind == Module && s.parent == None
    ensures Names(s) == host.builtinFunctions + host.builtinTypes
    ensures s.children == map[]
  {
    Scope("__global__", Module, None, {}, host.builtinFunctions, host.builtinTypes, map[], {})
  }

  // ---------------------------------------------------------------------------
  // Builtin type catalog: ObjectScope, ListScope, TupleScope, IntScope, StrScope, DictScope
  // ---------------------------------------------------------------------------

  datatype Catalog = ObjectCatalog | ListCatalog | TupleCatalog | IntCatalog | StrCatalog | DictCatalog

  function Reflect(host: Host, c: Catalog): Reflection {
    match c
    case ObjectCatalog => host.objectType
    case ListCatalog => host.listType
    case TupleCatalog => host.tupleType
    case IntCatalog => host.intType
    case StrCatalog => host.strType
    case DictCatalog => host.dictType
  }

  function CatalogName(c: Catalog): string {
    match c
    case ObjectCatalog => "object"
    case ListCatalog => "list"
    case TupleCatalog => "tuple"
    case IntCatalog => "int"
    case StrCatalog => "str"
    case DictCatalog => "dict"
  }

  /** The attributes a catalog scope leaves out: none for object, "_..." for str, "__..." otherwise. */
  predicate Hidden(c: Catalog, x: string) {
    match c
    case ObjectCatalog => false
    case StrCatalog => StartsWith(x, "_")
    case _ => StartsWith(x, "__")
  }

  /**
   * A fresh catalog scope of kind CLASS under `parent`: the callable visible
   * attributes become methods, the others variables.
   */
  function CatalogScope(host: Host, c: Catalog, parent: nat): (s: Scope)
    ensures s.kind == Class && s.parent == Some(parent) && s.children == map[]
  {
    var r := Reflect(host, c);
    Scope(CatalogName(c), Class, Some(parent),
          set x | x in r.attrs && x !in r.callables && !Hidden(c, x),
          set x | x in r.attrs && x in r.callables && !Hidden(c, x),
          {}, map[], {})
  }

  /**
   * A catalog scope offers exactly the visible attributes of its type: the
   * callable ones as methods, the others as variables; it has no types.
   */
  lemma CatalogScopeNames(host: Host, c: Catalog, parent: nat)
    ensures var s := CatalogScope(host, c, parent);
            && s.name == CatalogName(c) && s.types == {}
            && s.methods !! s.variables
            && (forall x :: x in Names(s) <==> x in Reflect(host, c).attrs && !Hidden(c, x))
            && (forall x :: x in s.methods ==> x in Reflect(host, c).callables)
            && (forall x :: x in s.variables ==> x !in Reflect(host, c).callables)
  {
  }

  // ---------------------------------------------------------------------------
  // The arena
  // ---------------------------------------------------------------------------

  predicate ParentsBefore(scopes: seq<Scope>) {
    forall i :: 0 <= i < |scopes| && scopes[i].parent.Some? ==> scopes[i].parent.value < i
  }

  predicate ChildrenInRange(scopes: seq<Scope>) {
    forall i, n :: 0 <= i < |scopes| && n in scopes[i].children ==> scopes[i].children[n] < |scopes|
  }

  /** One module scope at index 0 with no parent; every other scope has an earlier parent. */
  predicate WellFormedArena(scopes: seq<Scope>) {
    && |scopes| > 0
    && scopes[0].kind == Module && scopes[0].parent == None
    && (forall i :: 0 < i < |scopes| ==> scopes[i].parent.Some? && scopes[i].kind != Module)
    && ParentsBefore(scopes)
    && ChildrenInRange(scopes)
  }

  /** Names and children are only ever added; no scope changes its name, kind, parent or bases. */
  predicate ScopeGrows(a: Scope, b: Scope) {
    && a.name == b.name && a.kind == b.kind && a.parent == b.parent
    && a.inheritedNames == b.inheritedNames
    && a.variables <= b.variables && a.methods <= b.methods && a.types <= b.types
    && a.children.Keys <= b.children.Keys
  }

  predicate Grows(before: seq<Scope>, after: seq<Scope>) {
    |before| <= |after| && forall i :: 0 <= i < |before| ==> ScopeGrows(before[i], after[i])
  }

  lemma GrowsTransitive(a: seq<Scope>, b: seq<Scope>, c: seq<Scope>)
    requires Grows(a, b) && Grows(b, c)
    ensures Grows(a, c)
  {
  }

  /**
   * Scope `c` declares `n` (a class as one of its types, a function as one of
   * its methods) and `children[n]` becomes a new empty scope of that kind under `c`.
   */
  function Declare(scopes: seq<Scope>, c: nat, n: string, kind: ScopeKind): (r: seq<Scope>)
    requires WellFormedArena(scopes) && c < |scopes| && kind != Module
    ensures WellFormedArena(r) && |r| == |scopes| + 1
  {
    var s := scopes[c];
    var s' := if kind == Class then s.(types := s.types + {n}) else s.(methods := s.methods + {n});
    scopes[c := s'.(children := s'.children[n := |scopes|])] + [NewScope(n, kind, c)]
  }

  /** Scope `i` gains the variable `n`, bound to the scope `target`. */
  function BindVariable(scopes: seq<Scope>, i: nat, n: string, target: nat): (r: seq<Scope>)
    requires WellFormedArena(scopes) && i < |scopes| && target < |scopes|
    ensures WellFormedArena(r) && |r| == |scopes|
  {
    scopes[i := scopes[i].(variables := scopes[i].variables + {n}, children := scopes[i].children[n := target])]
  }

  /** Scope `i` gains the variable `n`, unbound. */
  function AddVariable(scopes: seq<Scope>, i: nat, n: string): (r: seq<Scope>)
    requires WellFormedArena(scopes) && i < |scopes|
    ensures WellFormedArena(r) && |r| == |scopes|
  {
    scopes[i := scopes[i].(variables := scopes[i].variables + {n})]
  }

  /** A fresh catalog scope of type `cat` is appended under `owner`. */
  function AddCatalog(scopes: seq<Scope>, host: Host, cat: Catalog, owner: nat): (r: seq<Scope>)
    requires WellFormedArena(scopes) && owner < |scopes|
    ensures WellFormedArena(r) && |r| == |scopes| + 1
  {
    scopes + [CatalogScope(host, cat, owner)]
  }

  /** Scope `i` gets the base names `bases`. */
  function SetBases(scopes: seq<Scope>, i: nat, bases: set<string>): (r: seq<Scope>)
    requires WellFormedArena(scopes) && i < |scopes|
    ensures WellFormedArena(r) && |r| == |scopes|
  {
    scopes[i := scopes[i].(inheritedNames := bases)]
  }

  /**
   * Declaring adds a scope at the end and the name to the declaring scope (as a
   * type for a class, a method for a function), binding it to the new scope;
   * nothing is removed.
   */
  lemma DeclareAdds(scopes: seq<Scope>, c: nat, n: string, kind: ScopeKind)
    requires WellFormedArena(scopes) && c < |scopes| && kind != Module
    ensures var r := Declare(scopes, c, n, kind);
            && Grows(scopes, r)
            && r[|scopes|] == NewScope(n, kind, c)
            && n in (if kind == Class then r[c].types else r[c].methods)
            && r[c].children[n] == |scopes|
            && forall i :: 0 <= i < |scopes| && i != c ==> r[i] == scopes[i]
  {
  }

  /** The arena functions that add names only ever add. */
  lemma ArenaUpdatesGrow(scopes: seq<Scope>, host: Host, i: nat, n: string, target: nat, cat: Catalog)
    requires WellFormedArena(scopes) && i < |scopes| && target < |scopes|
    ensures Grows(scopes, BindVariable(scopes, i, n, target))
    ensures Grows(scopes, AddVariable(scopes, i, n))
    ensures Grows(scopes, AddCatalog(scopes, host, cat, i))
  {
  }

  /** The scope `i`, its parent, its parent's parent, ..., up to a scope without a parent. */
  function Chain(scopes: seq<Scope>, i: nat): (c: seq<nat>)
    requires ParentsBefore(scopes) && i < |scopes|
    ensures |c| >= 1 && c[0] == i
    ensures forall k :: 0 <= k < |c| ==> c[k] < |scopes|
    decreases i
  {
    match scopes[i].parent
    case None => [i]
    case Some(p) => [i] + Chain(scopes, p)
  }

  /** Each link of the chain is a parent link, and the chain stops exactly at a scope without a parent. */
  lemma {:induction false} ChainStep(scopes: seq<Scope>, i: nat, k: nat)
    requires ParentsBefore(scopes) && i < |scopes| && k < |Chain(scopes, i)|
    ensures k + 1 < |Chain(scopes, i)| <==> scopes[Chain(scopes, i)[k]].parent.Some?
    ensures k + 1 < |Chain(scopes, i)| ==> Chain(scopes, i)[k + 1] == scopes[Chain(scopes, i)[k]].parent.value
    decreases i
  {
    if k > 0 {
      var p := scopes[i].parent.value;
      ChainStep(scopes, p, k - 1);
    }
  }

  /** The nearest scope of kind `t` among `i` and its ancestors. */
  function NearestOfKind(scopes: seq<Scope>, i: nat, t: ScopeKind): (r: Option<nat>)
    requires ParentsBefore(scopes) && i < |scopes|
    ensures r.Some? ==> r.value <= i && scopes[r.value].kind == t
    decreases i
  {
    if scopes[i].kind == t then Some(i)
    else match scopes[i].parent
      case None => None
      case Some(p) => NearestOfKind(scopes, p, t)
  }

  /** NearestOfKind finds nothing exactly when no scope on the parent chain has kind `t`. */
  lemma {:induction false} NearestOfKindNoneOnChain(scopes: seq<Scope>, i: nat, t: ScopeKind)
    requires ParentsBefore(scopes) && i < |scopes|
    ensures NearestOfKind(scopes, i, t).None? <==>
              forall k :: 0 <= k < |Chain(scopes, i)| ==> scopes[Chain(scopes, i)[k]].kind != t
    decreases i
  {
    if scopes[i].kind == t {
      assert scopes[Chain(scopes, i)[0]].kind == t;
    } else if scopes[i].parent.Some? {
      var p := scopes[i].parent.value;
      NearestOfKindNoneOnChain(scopes, p, t);
      assert Chain(scopes, i) == [i] + Chain(scopes, p);
      if NearestOfKind(scopes, p, t).Some? {
        var k :| 0 <= k < |Chain(scopes, p)| && scopes[Chain(scopes, p)[k]].kind == t;
        assert scopes[Chain(scopes, i)[k + 1]].kind == t;
      } else {
        forall k | 0 <= k < |Chain(scopes, i)| ensures scopes[Chain(scopes, i)[k]].kind != t {
          if k > 0 {
            assert Chain(scopes, i)[k] == Chain(scopes, p)[k - 1];
          }
        }
      }
    }
  }

  /** NearestOfKind finds the first scope of kind `t` on the parent chain. */
  lemma {:induction false} NearestOfKindIsFirstOnChain(scopes: seq<Scope>, i: nat, t: ScopeKind)
    requires ParentsBefore(scopes) && i < |scopes|
    ensures NearestOfKind(scopes, i, t).Some? ==>
              exists k :: 0 <= k < |Chain(scopes, i)| && Chain(scopes, i)[k] == NearestOfKind(scopes, i, t).value
                          && forall m :: 0 <= m < k ==> scopes[Chain(scopes, i)[m]].kind != t
    decreases i
  {
    if scopes[i].kind == t {
      assert Chain(scopes, i)[0] == i;
    } else if scopes[i].parent.Some? && NearestOfKind(scopes, scopes[i].parent.value, t).Some? {
      var p := scopes[i].parent.value;
      NearestOfKindIsFirstOnChain(scopes, p, t);
      assert Chain(scopes, i) == [i] + Chain(scopes, p);
      var k :| 0 <= k < |Chain(scopes, p)| && Chain(scopes, p)[k] == NearestOfKind(scopes, p, t).value
               && forall m :: 0 <= m < k ==> scopes[Chain(scopes, p)[m]].kind != t;
      assert Chain(scopes, i)[k + 1] == Chain(scopes, p)[k];
      forall m | 0 <= m < k + 1 ensures scopes[Chain(scopes, i)[m]].kind != t {
        if m > 0 { assert Chain(scopes, i)[m] == Chain(scopes, p)[m - 1]; }
      }
    }
  }
}
