/**
 * What the parser computes from the token list of one statement, apart from
 * the scope updates: the tokens a filter keeps, a class header's base list,
 * whether a block header already holds its body, where the first `=` is, and
 * which catalog type a right-hand side suggests.
 */
module Headers {
  import opened Wrappers
  import opened Tokens
  import opened Scopes

  /** `[x for x in ts if x[1] not in texts]` */
  function Drop(ts: seq<Token>, texts: set<string>): (r: seq<Token>)
    ensures |r| <= |ts|
    ensures forall t {:trigger t in r} :: t in r <==> t in ts && t.text !in texts
  {
    if ts == [] then []
    else if ts[0].text in texts then
      assert forall t :: t in ts[1..] ==> t in ts;
      Drop(ts[1..], texts)
    else
      assert ts == [ts[0]] + ts[1..];
      [ts[0]] + Drop(ts[1..], texts)
  }

  /** The filter keeps order and repetitions: filtering two lists one after the other is filtering their concatenation. */
  lemma {:induction false} DropAppend(a: seq<Token>, b: seq<Token>, texts: set<string>)
    ensures Drop(a + b, texts) == Drop(a, texts) + Drop(b, texts)
    decreases |a|
  {
    if a == [] {
      assert a + b == b;
    } else {
      var x, rest := a[0], a[1..];
      DropAppend(rest, b, texts);
      if x.text in texts {
        calc {
          Drop(a + b, texts);
          == { assert a + b == [x] + (rest + b); DropCons(x, rest + b, texts); }
          Drop(rest + b, texts);
          ==
          Drop(rest, texts) + Drop(b, texts);
          == { assert a == [x] + rest; DropCons(x, rest, texts); }
          Drop(a, texts) + Drop(b, texts);
        }
      } else {
        calc {
          Drop(a + b, texts);
          == { assert a + b == [x] + (rest + b); DropCons(x, rest + b, texts); }
          [x] + Drop(rest + b, texts);
          ==
          [x] + (Drop(rest, texts) + Drop(b, texts));
          ==
          ([x] + Drop(rest, texts)) + Drop(b, texts);
          == { assert a == [x] + rest; DropCons(x, rest, texts); }
          Drop(a, texts) + Drop(b, texts);
        }
      }
    }
  }

  /** One token in front: kept unless its text is dropped. */
  lemma DropCons(x: Token, rest: seq<Token>, texts: set<string>)
    ensures Drop([x] + rest, texts) == if x.text in texts then Drop(rest, texts) else [x] + Drop(rest, texts)
  {
    assert ([x] + rest)[1..] == rest;
  }

  /** The filter keeps the order: its first token is the first one not dropped, and it is empty only when every token is dropped. */
  lemma {:induction false} DropFirst(ts: seq<Token>, texts: set<string>)
    ensures Drop(ts, texts) != [] ==>
              exists i :: 0 <= i < |ts| && ts[i] == Drop(ts, texts)[0] && forall j :: 0 <= j < i ==> ts[j].text in texts
    ensures Drop(ts, texts) == [] <==> forall j :: 0 <= j < |ts| ==> ts[j].text in texts
  {
    if ts != [] {
      DropFirst(ts[1..], texts);
      if ts[0].text in texts {
        var r := Drop(ts[1..], texts);
        if r != [] {
          var i :| 0 <= i < |ts[1..]| && ts[1..][i] == r[0] && forall j :: 0 <= j < i ==> ts[1..][j].text in texts;
          assert ts[i + 1] == r[0] && forall j :: 0 <= j < i + 1 ==> ts[j].text in texts;
        } else {
          forall j | 0 <= j < |ts| ensures ts[j].text in texts {
            if j > 0 { assert ts[j] == ts[1..][j - 1]; }
          }
        }
      } else {
        assert ts[0] == Drop(ts, texts)[0];
      }
    }
  }

  // ---------------------------------------------------------------------------
  // Class header: `( base , base ) :` after the class name
  // ---------------------------------------------------------------------------

  /** Position of the first ":" or ")" in the tokens after "(", or |ts| when there is none. */
  function BaseEnd(ts: seq<Token>): (k: nat)
    ensures k <= |ts|
    ensures forall i :: 0 <= i < k ==> ts[i].text != ":" && ts[i].text != ")"
    ensures k < |ts| ==> ts[k].text == ":" || ts[k].text == ")"
  {
    if ts == [] || ts[0].text == ":" || ts[0].text == ")" then 0
    else 1 + BaseEnd(ts[1..])
  }

  /** The base names a header lists: every token before the first ":" or ")" except ",". */
  function BaseNames(ts: seq<Token>): set<string> {
    set i | 0 <= i < BaseEnd(ts) && ts[i].text != "," :: ts[i].text
  }

  /** What is left of the header once the base list is consumed: a closing ")" is consumed, a ":" is not. */
  function AfterBases(ts: seq<Token>): seq<Token> {
    var k := BaseEnd(ts);
    if k == |ts| then [] else if ts[k].text == ")" then ts[k + 1..] else ts[k..]
  }

  /** The loop over the base list of a class header (the tokens after "("). */
  method SplitBases(ts: seq<Token>) returns (bases: set<string>, rest: seq<Token>)
    ensures bases == BaseNames(ts)
    ensures rest == AfterBases(ts)
  {
    bases := {};
    rest := ts;
    var i := 0;
    while i < |ts|
      invariant 0 <= i <= BaseEnd(ts)
      invariant rest == ts[i..]
      invariant bases == set k | 0 <= k < i && ts[k].text != "," :: ts[k].text
    {
      if rest[0].text == ":" {
        break;
      }
      rest := rest[1..];
      var text := ts[i].text;
      i := i + 1;
      if text == ")" {
        break;
      }
      if text == "," {
        continue;
      }
      bases := bases + {text};
    }
  }

  /** The base names of a class header's tokens: only when the header opens with "(". */
  function ClassBases(hdr: seq<Token>): set<string> {
    if hdr != [] && hdr[0].text == "(" then BaseNames(hdr[1..]) else {}
  }

  /** The class header's tokens once a leading base list is consumed. */
  function ClassRest(hdr: seq<Token>): seq<Token> {
    if hdr != [] && hdr[0].text == "(" then AfterBases(hdr[1..]) else hdr
  }

  /** After the header, a ":" followed by something other than "\n": a body on the header's line. */
  predicate OneLineBody(rest: seq<Token>) {
    |rest| > 1 && rest[0].text == ":" && rest[1].text != "\n"
  }

  // ---------------------------------------------------------------------------
  // Block header of if/for/while/try/...: does its body follow on the same line?
  // ---------------------------------------------------------------------------

  /** `token_types.index(COLON)`, or |ts| when no token is a COLON. */
  function FirstColon(ts: seq<Token>): (k: nat)
    ensures k <= |ts|
    ensures forall i :: 0 <= i < k ==> ts[i].kind != Colon
    ensures k < |ts| ==> ts[k].kind == Colon
  {
    if ts == [] || ts[0].kind == Colon then 0 else 1 + FirstColon(ts[1..])
  }

  /** Some token other than a NEWLINE follows the first COLON of the header. */
  predicate ClosesOnSameLine(ts: seq<Token>) {
    var c := FirstColon(ts);
    c < |ts| && exists j :: c < j < |ts| && ts[j].kind != Newline
  }

  // ---------------------------------------------------------------------------
  // Assignment statements
  // ---------------------------------------------------------------------------

  /** Position of the first token whose text is `x`, or |ts| when there is none. */
  function FirstOf(ts: seq<Token>, x: string): (k: nat)
    ensures k <= |ts|
    ensures forall i :: 0 <= i < k ==> ts[i].text != x
    ensures k < |ts| ==> ts[k].text == x
  {
    if ts == [] || ts[0].text == x then 0 else 1 + FirstOf(ts[1..], x)
  }

  /** The position of the first token whose text is "=", if any. */
  method FindAssign(ts: seq<Token>) returns (eq: Option<nat>)
    ensures eq.None? <==> forall i :: 0 <= i < |ts| ==> ts[i].text != "="
    ensures eq.Some? ==> eq.value < |ts| && ts[eq.value].text == "="
    ensures eq.Some? ==> forall i :: 0 <= i < eq.value ==> ts[i].text != "="
    ensures eq == if FirstOf(ts, "=") < |ts| then Some(FirstOf(ts, "=")) else None
  {
    eq := None;
    var i := 0;
    while i < |ts|
      invariant 0 <= i <= |ts|
      invariant forall k :: 0 <= k < i ==> ts[k].text != "="
    {
      if ts[i].text == "=" {
        eq := Some(i);
        return;
      }
      i := i + 1;
    }
  }

  /** The catalog type suggested by the first right-hand token: `[`, `(`, `{`, a NUMBER or a STRING. */
  function InferCatalog(first: Token): (c: Option<Catalog>)
    ensures c == Some(ListCatalog) <==> first.text == "["
    ensures c == Some(TupleCatalog) <==> first.text == "("
    ensures c == Some(DictCatalog) <==> first.text == "{"
    ensures c == Some(IntCatalog) <==> first.text !in {"[", "(", "{"} && first.kind == Number
    ensures c == Some(StrCatalog) <==> first.text !in {"[", "(", "{"} && first.kind == Str
    ensures c.Some? ==> c.value != ObjectCatalog
  {
    if first.text == "[" then Some(ListCatalog)
    else if first.text == "(" then Some(TupleCatalog)
    else if first.text == "{" then Some(DictCatalog)
    else if first.kind == Number then Some(IntCatalog)
    else if first.kind == Str then Some(StrCatalog)
    else None
  }
}
