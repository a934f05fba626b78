/**
 * The token stream the parser consumes: the output of Python's `tokenize`
 * for one buffer, taken as given.
 */
module Tokens {
  import opened Wrappers

  /** The token classes of Python's `tokenize` and `token` modules. */
  datatype TokenKind =
    | Name | Op | Colon | Number | Str | Comment
    | Newline | Nl | Indent | Dedent | EndMarker | ErrorToken

  datatype Token = Token(kind: TokenKind, text: string)

  /**
   * What `tokenize.generate_tokens` yields for a buffer: the tokens, then either
   * the end of the input (StopIteration) or, when `failsAtEnd`, an
   * IndentationError or TokenError raised in place of the next token.
   */
  datatype TokenStream = TokenStream(tokens: seq<Token>, failsAtEnd: bool)

  /** A token that ends a statement for `_parse_to_end`: a NEWLINE, or any token whose text is "\n". */
  predicate IsTerminator(t: Token) {
    t.kind == Newline || t.text == "\n"
  }

  /** Index of the first statement-ending token at or after `from`, if any. */
  function StatementEnd(toks: seq<Token>, from: nat): (j: Option<nat>)
    requires from <= |toks|
    ensures j.Some? ==> from <= j.value < |toks| && IsTerminator(toks[j.value])
    ensures forall i :: from <= i < (if j.Some? then j.value else |toks|) ==> !IsTerminator(toks[i])
    decreases |toks| - from
  {
    if from == |toks| then None
    else if IsTerminator(toks[from]) then Some(from)
    else StatementEnd(toks, from + 1)
  }

  /** The tokens `_parse_to_end` keeps: everything before the first COMMENT. */
  function BeforeComment(s: seq<Token>): seq<Token> {
    if s == [] || s[0].kind == Comment then []
    else [s[0]] + BeforeComment(s[1..])
  }

  /** The kept tokens are a prefix holding no comment, cut exactly at the first comment if there is one. */
  lemma {:induction false} BeforeCommentIsPrefix(s: seq<Token>)
    ensures BeforeComment(s) <= s
    ensures forall i :: 0 <= i < |BeforeComment(s)| ==> BeforeComment(s)[i].kind != Comment
    ensures |BeforeComment(s)| < |s| ==> s[|BeforeComment(s)|].kind == Comment
  {
    if s != [] && s[0].kind != Comment {
      BeforeCommentIsPrefix(s[1..]);
      var r := BeforeComment(s[1..]);
      assert BeforeComment(s) == [s[0]] + r;
      assert s == [s[0]] + s[1..];
      forall i | 0 <= i < |BeforeComment(s)| ensures BeforeComment(s)[i].kind != Comment {
        if i > 0 { assert BeforeComment(s)[i] == r[i - 1]; }
      }
    }
  }

  /** A comment first keeps nothing; any other first token is kept. */
  lemma BeforeCommentCons(t: Token, s: seq<Token>)
    ensures BeforeComment([t] + s) == if t.kind == Comment then [] else [t] + BeforeComment(s)
  {
    assert ([t] + s)[1..] == s;
  }

  /** A statement as `_parse_to_end` reads it: the tokens it keeps and the index of its last token. */
  datatype Statement = Statement(kept: seq<Token>, end: nat)

  /**
   * What `_parse_to_end` reads when started at `from`: the tokens up to and
   * including the next statement-ending token, cut at the first COMMENT; None
   * when the input ends first.
   */
  function StatementAt(toks: seq<Token>, from: nat): (r: Option<Statement>)
    requires from <= |toks|
    ensures r.Some? ==> from <= r.value.end < |toks| && IsTerminator(toks[r.value.end])
    decreases |toks| - from
  {
    if from == |toks| then None
    else
      var t := toks[from];
      var later := if IsTerminator(t) then Some(Statement([], from)) else StatementAt(toks, from + 1);
      match later
      case None => None
      case Some(st) => Some(st.(kept := if t.kind == Comment then [] else [t] + st.kept))
  }

  /** The statement read so far (`ts`, complete once a comment was seen) followed by what is still to come. */
  function Resume(ts: seq<Token>, ignoreRest: bool, later: Option<Statement>): Option<Statement> {
    match later
    case None => None
    case Some(st) => Some(st.(kept := if ignoreRest then ts else ts + st.kept))
  }

  /** One more token read: the statement so far keeps it unless a comment has been seen, and ends if it is a terminator. */
  lemma ResumeStep(toks: seq<Token>, p: nat, ts: seq<Token>, ignoreRest: bool)
    requires p < |toks|
    ensures var t := toks[p];
            var ignore' := ignoreRest || t.kind == Comment;
            var ts' := if ignore' then ts else ts + [t];
            Resume(ts, ignoreRest, StatementAt(toks, p)) ==
              if IsTerminator(t) then Some(Statement(ts', p)) else Resume(ts', ignore', StatementAt(toks, p + 1))
  {
    var t := toks[p];
    if !IsTerminator(t) && StatementAt(toks, p + 1).Some? {
      var later := StatementAt(toks, p + 1).value.kept;
      if t.kind == Comment {
        assert ts + [] == ts;
      } else if !ignoreRest {
        assert (ts + [t]) + later == ts + ([t] + later);
      }
    } else if IsTerminator(t) {
      assert [t] + [] == [t];
      assert StatementAt(toks, p) == Some(Statement(if t.kind == Comment then [] else [t], p));
      assert ts + [] == ts;
    }
  }

  lemma SliceCons<T>(s: seq<T>, from: nat, to: nat)
    requires from < to <= |s|
    ensures s[from..to] == [s[from]] + s[from + 1..to]
  {
  }

  /** A statement is read exactly when a statement-ending token follows, and it ends at the first one. */
  lemma {:induction false} StatementAtEndsAtFirstTerminator(toks: seq<Token>, from: nat)
    requires from <= |toks|
    ensures StatementAt(toks, from).None? <==> StatementEnd(toks, from).None?
    ensures StatementAt(toks, from).Some? ==> StatementAt(toks, from).value.end == StatementEnd(toks, from).value
    decreases |toks| - from
  {
    if from < |toks| && !IsTerminator(toks[from]) {
      StatementAtEndsAtFirstTerminator(toks, from + 1);
    }
  }

  /** The statement keeps exactly the part of its tokens before the first comment. */
  lemma {:induction false} StatementAtKeepsBeforeComment(toks: seq<Token>, from: nat)
    requires from <= |toks|
    ensures StatementAt(toks, from).Some? ==>
              var st := StatementAt(toks, from).value;
              st.kept == BeforeComment(toks[from..st.end + 1])
    decreases |toks| - from
  {
    if from < |toks| {
      if IsTerminator(toks[from]) {
        TerminatorKept(toks, from);
      } else if StatementAt(toks, from + 1).Some? {
        StatementAtKeepsBeforeComment(toks, from + 1);
        KeptCons(toks, from);
      }
    }
  }

  /** A statement-ending token read first is kept alone, unless it is a comment. */
  lemma TerminatorKept(toks: seq<Token>, from: nat)
    requires from < |toks| && IsTerminator(toks[from])
    ensures StatementAt(toks, from) == Some(Statement(BeforeComment(toks[from..from + 1]), from))
  {
    var t := toks[from];
    var kept := if t.kind == Comment then [] else [t] + [];
    assert StatementAt(toks, from) == Some(Statement([], from).(kept := kept));
    BeforeCommentSlice(toks, from, from + 1);
    assert BeforeComment(toks[from + 1..from + 1]) == [];
  }

  /** Any other token read first is put in front of what the rest of the statement keeps. */
  lemma KeptCons(toks: seq<Token>, from: nat)
    requires from < |toks| && !IsTerminator(toks[from]) && StatementAt(toks, from + 1).Some?
    requires var later := StatementAt(toks, from + 1).value;
             later.kept == BeforeComment(toks[from + 1..later.end + 1])
    ensures StatementAt(toks, from).Some?
    ensures var st := StatementAt(toks, from).value;
            st.kept == BeforeComment(toks[from..st.end + 1])
  {
    var t := toks[from];
    var later := StatementAt(toks, from + 1).value;
    var st := later.(kept := if t.kind == Comment then [] else [t] + later.kept);
    assert StatementAt(toks, from) == Some(st);
    BeforeCommentSlice(toks, from, later.end + 1);
  }

  /** BeforeComment of a slice, one token at a time. */
  lemma BeforeCommentSlice(s: seq<Token>, lo: nat, hi: nat)
    requires lo < hi <= |s|
    ensures BeforeComment(s[lo..hi]) == if s[lo].kind == Comment then [] else [s[lo]] + BeforeComment(s[lo + 1..hi])
  {
    SliceCons(s, lo, hi);
    BeforeCommentCons(s[lo], s[lo + 1..hi]);
  }

  /** How many of the tokens at positions `lo` to `hi - 1` have the text "\n": the lines counted while they are read. */
  function Lines(toks: seq<Token>, lo: nat, hi: nat): nat
    requires lo <= hi <= |toks|
    decreases hi
  {
    if lo == hi then 0 else Lines(toks, lo, hi - 1) + (if toks[hi - 1].text == "\n" then 1 else 0)
  }

  /** Counting lines over two adjacent ranges is counting them over their union. */
  lemma {:induction false} LinesAdd(toks: seq<Token>, a: nat, b: nat, c: nat)
    requires a <= b <= c <= |toks|
    ensures Lines(toks, a, c) == Lines(toks, a, b) + Lines(toks, b, c)
    decreases c
  {
    if b < c {
      LinesAdd(toks, a, b, c - 1);
    }
  }

  /** A range without statement-ending tokens holds no "\n" token. */
  lemma {:induction false} LinesWithoutTerminator(toks: seq<Token>, lo: nat, hi: nat)
    requires lo <= hi <= |toks|
    requires forall i :: lo <= i < hi ==> !IsTerminator(toks[i])
    ensures Lines(toks, lo, hi) == 0
    decreases hi
  {
    if lo < hi {
      LinesWithoutTerminator(toks, lo, hi - 1);
    }
  }

  /** Reading a statement counts one line at most: for its terminator, when that is a "\n" token. */
  lemma LinesOfStatement(toks: seq<Token>, from: nat)
    requires from <= |toks|
    ensures match StatementAt(toks, from)
      case Some(st) => Lines(toks, from, st.end + 1) == if toks[st.end].text == "\n" then 1 else 0
      case None => Lines(toks, from, |toks|) == 0
  {
    StatementAtEndsAtFirstTerminator(toks, from);
    match StatementAt(toks, from)
    case Some(st) =>
      LinesWithoutTerminator(toks, from, st.end);
    case None =>
      LinesWithoutTerminator(toks, from, |toks|);
  }
}
