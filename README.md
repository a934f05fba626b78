# Python code completion: scope builder and completer

This project models the core of `pythoncodecompletion/code_complete.py`, the
completion engine of a gedit plugin for Python 2. The engine has two parts:

- `FileParser` reads the token stream of one buffer statement by statement. It
  keeps a pointer to the current scope, a stack of dedent flags and a line
  counter. It builds a tree of `Scope` objects:
  - each class becomes a type and a child scope of the scope that declares it;
  - each function becomes a method and a child scope, with its parameters as variables;
  - each single-target assignment becomes a variable, bound to a scope for
    list, tuple, dict, int or str when its right-hand side starts with a literal.
  When the line counter reaches a target line, the parser remembers the
  current scope as the active scope.
- `Completer` keeps the last successful parse of each buffer and answers a
  query such as `foo`, `self.x` or `a.b.c`. It follows the dotted parts
  through the child scopes, starting at the active scope. It returns the names
  that start with the first part that does not resolve, plus the matching global
  names while no part has resolved. The answer is sorted and has no repetitions.

How the model is built:

- **Scopes** (`scopes.dfy`) live in an arena, a `seq<Scope>`. The global scope
  is at index 0. A parent always sits at a lower index than its children.
  `children` maps names to arena indices. A method's first parameter points
  back to its class, so the arena is a graph, not a tree.
- **Reflection** supplies the builtin names, the keyword list and the
  attributes of `object`, `list`, `tuple`, `int`, `str` and `dict`. It becomes
  the `Host` parameter.
- **The tokenizer's output** is the `TokenStream` parameter: the tokens,
  then either the end of input or a tokenizer error.
- **The parser** (`parser.dfy`) is a class whose methods update
  the arena, the current scope, the dedent stack, the line counter and the
  token position in place. The same parse is also written on values: a
  `ParseState` (position, arena, current scope, dedent flags), one function
  per handler (`ClassParsed`, `MethodParsed`, `StatementParsed`, ...), `Step`
  for the branch the first token selects, and `ParseRun` for the whole loop,
  which also records the line counter and the current scope at the start of
  every statement. Each handler method's contract says that its result and
  the new state equal its handler function; `DoParse` and the constructor
  equal `ParseRun`, and the active scope is the one recorded last at the
  target line. `ParseToEnd` is proved against `StatementAt`, `NextToken`
  against the token sequence, and the line counter always equals the number
  of `"\n"` tokens read (`Lines`). Lemmas on the value functions then show
  that the parse only adds to the arena and keeps the builtins in the global
  scope.
- **Exceptions** become the `Stop` datatype: `EndOfInput` (StopIteration),
  `TokenizeError` (IndentationError or TokenError) and `Crash` (an exception
  of the parser's own code, which nothing catches).
- **The completer** (`completer.dfy`) is a class holding the stored parses
  and the name of the active buffer. Its query loop is proved against
  `CompletionSet`, a function over the parse and the query. Lemmas then derive
  the promised behaviour from `CompletionSet`:
  - the no-dot case;
  - the dotted case;
  - the fully resolved case;
  - the exclusion of the query itself.

Where the code does something other than it appears to intend, the model
follows the code:

- `_get_next_token` is defined twice, and Python binds the second definition.
  So DEDENT tokens never reach `_dedent`, and the line counter counts only
  tokens whose text is `"\n"`. The comparison of a token's text with
  `tokenize.NEWLINE` at line 368 compares a string with an integer, so it is
  never true. As a result, `_dedent` runs only for a class whose body is on
  the header line.
- An assignment to `self.NAME` outside any class does nothing, as the code says.
  The exception is the module scope itself: there the diagnostic print at
  line 303 reads the name of a missing parent and raises AttributeError. The
  model treats this as a crash of the parse (`CrashReason.NoParentScope`).
- A crash of the parser propagates out of `parse_file`, because only
  IndentationError and TokenError are caught. So a crash changes neither the
  stored parsers nor the active buffer.
- A block header checks the token kind COLON, as the code does. Python 2's
  `tokenize` reports `:` as OP, so with the real tokenizer every block keyword
  pushes `False`. The model keeps the code's test on the token kind.
- A query without a dot is one part, and that part is the query itself.
  The query is removed from the candidate names, so such a query never
  descends into a child scope.
- `not self._active_parser` is also true for a buffer named `""`. The model
  returns `[]` for that name too.

## Model

| member | source | states |
|---|---|---|
| Scopes.GlobalScope | pythoncodecompletion/code_complete.py:36-54 | the global scope is a MODULE scope without parent or children whose names are exactly the builtin functions and types |
| Scopes.CatalogScopeNames | pythoncodecompletion/code_complete.py:90-156 | a catalog scope offers exactly its type's attributes without the hidden prefix ("__", "_" for str, none for object): callables as methods, the rest as variables, no types |
| Scopes.DeclareAdds | pythoncodecompletion/code_complete.py:189-192 | declaring a class or function appends a new empty scope under the declaring scope, adds the name as a type or method bound to it, and changes no other scope |
| Scopes.ArenaUpdatesGrow | pythoncodecompletion/code_complete.py:247-256 | binding or adding a variable and appending a catalog scope only add names and scopes, never remove or rename |
| Scopes.ChainStep | pythoncodecompletion/code_complete.py:330-332 | each step of the parent chain follows a parent link, and the chain ends exactly at a scope without a parent |
| Scopes.NearestOfKindNoneOnChain | pythoncodecompletion/code_complete.py:329-337 | the search for a scope kind finds nothing exactly when no scope on the parent chain has that kind |
| Scopes.NearestOfKindIsFirstOnChain | pythoncodecompletion/code_complete.py:329-337 | a scope found by the search is on the parent chain and every scope before it on the chain has another kind |
| Tokens.StatementEnd | pythoncodecompletion/code_complete.py:181-182 | the first NEWLINE or "\n" token at or after a position, with no terminator before it |
| Tokens.BeforeCommentIsPrefix | pythoncodecompletion/code_complete.py:174-179 | the kept tokens are a prefix of the statement holding no COMMENT, cut exactly at the first COMMENT |
| Tokens.ResumeStep | pythoncodecompletion/code_complete.py:171-182 | one more token read keeps it unless a comment was seen and ends the statement when it is a terminator |
| Tokens.StatementAtEndsAtFirstTerminator | pythoncodecompletion/code_complete.py:168-183 | a statement is read exactly when a terminator follows, and it ends at the first one |
| Tokens.StatementAtKeepsBeforeComment | pythoncodecompletion/code_complete.py:168-183 | a statement keeps exactly its tokens up to its first COMMENT |
| Tokens.LinesOfStatement | pythoncodecompletion/code_complete.py:168-183 | reading a statement counts one line exactly when its terminator's text is "\n", and reading to the end of a stream without a statement counts none |
| PyStr.LStripBlank | pythoncodecompletion/code_complete.py:424 | `lstrip` leaves nothing exactly when every character is white space, and otherwise starts at a character that is not |
| PyStr.RStripBlank | pythoncodecompletion/code_complete.py:424 | `rstrip` leaves nothing exactly when every character is white space, and otherwise ends at a character that is not |
| PyStr.StripEmptyIffBlank | pythoncodecompletion/code_complete.py:424 | `strip()` is empty exactly when every character is white space |
| PyStr.BelowIrreflexive | pythoncodecompletion/code_complete.py:507 | the string order used by `sorted` is irreflexive |
| PyStr.BelowTransitive | pythoncodecompletion/code_complete.py:507 | the string order used by `sorted` is transitive |
| PyStr.BelowTotal | pythoncodecompletion/code_complete.py:507 | of two different strings one is below the other |
| PyStr.AscendingHasNoDuplicates | pythoncodecompletion/code_complete.py:507 | a strictly ascending list holds no element twice |
| PyStr.InsertSorted | pythoncodecompletion/code_complete.py:507 | inserting into an ascending list keeps it ascending and adds exactly the new element |
| PyStr.SortedDistinct | pythoncodecompletion/code_complete.py:507 | `sorted(list(set(matches)))` is strictly ascending with the same elements as `matches` |
| PyStr.SplitCount | pythoncodecompletion/code_complete.py:464 | `split(".")` gives one more part than the string has dots |
| PyStr.SplitJoin | pythoncodecompletion/code_complete.py:464 | joining the parts of a split with the separator gives the string back |
| PyStr.SplitPartsLackSeparator | pythoncodecompletion/code_complete.py:464 | no part of a split contains the separator |
| PyStr.SplitWithoutSeparator | pythoncodecompletion/code_complete.py:464 | a string without the separator splits into itself alone |
| Headers.Drop | pythoncodecompletion/code_complete.py:232 | a token is in the result exactly when it is in the input and its text is not dropped, and the result is no longer than the input |
| Headers.DropAppend | pythoncodecompletion/code_complete.py:232 | the filter keeps order and repetitions: filtering a concatenation is concatenating the filtered parts |
| Headers.DropFirst | pythoncodecompletion/code_complete.py:232-241 | the filtered list keeps the order: its first token is the first one not dropped, and it is empty exactly when every token is dropped |
| Headers.BaseEnd | pythoncodecompletion/code_complete.py:199-204 | the base list runs up to the first ":" or ")" |
| Headers.SplitBases | pythoncodecompletion/code_complete.py:196-207 | the base loop collects every name before the first ":" or ")" except ",", consumes a ")" but not a ":" |
| Headers.FirstColon | pythoncodecompletion/code_complete.py:409-410 | `token_types.index(COLON)`: the first COLON token, none before it |
| Headers.FirstOf | pythoncodecompletion/code_complete.py:283-288 | the position of the first token with the given text, none before it |
| Headers.FindAssign | pythoncodecompletion/code_complete.py:280-288 | a statement is an assignment exactly when it holds a "=", and only the first "=" counts |
| Headers.InferCatalog | pythoncodecompletion/code_complete.py:316-325 | the right-hand side's first token selects list, tuple, dict (by text, first match wins), int or str (by kind), or no catalog |
| Parser.Assigned | pythoncodecompletion/code_complete.py:315-325 | recording an assignment keeps the arena well formed and appends a scope exactly when there is a catalog type |
| Parser.AssignedRecords | pythoncodecompletion/code_complete.py:315-325 | the target becomes a variable of its scope, bound to a fresh catalog scope under the current scope when there is a type, keeping an earlier binding otherwise; no other scope changes |
| Parser.Recorded | pythoncodecompletion/code_complete.py:294-327 | recording a statement keeps the arena well formed, never removes scopes, and can end the parse only by a crash |
| Parser.AssignmentCases | pythoncodecompletion/code_complete.py:275-327 | every case of `_parse_statement`: no "=" changes nothing; a single non-`self` target is recorded in the current scope, several targets record nothing; `self.NAME` is recorded in the nearest class and crashes without a member name; outside any class nothing is recorded and the parse crashes exactly at module level; nothing after "=" crashes after recording the variable |
| Parser.AssignmentGrows | pythoncodecompletion/code_complete.py:275-327 | a statement never removes a name, a child or a scope, and never renames or moves a scope |
| Parser.RecordedGrows | pythoncodecompletion/code_complete.py:294-327 | recording an assignment, in every branch, only adds to the arena |
| Parser.BindParams | pythoncodecompletion/code_complete.py:253-256 | every parameter becomes a variable bound to one of the scopes appended for the parameters; the method's other fields and unrelated bindings stay |
| Parser.ObjectParamsBound | pythoncodecompletion/code_complete.py:252-256 | after the parameter loop each parameter is a variable bound to a fresh `object` scope under the method, and other bindings stay |
| Parser.ObjectParamStep | pythoncodecompletion/code_complete.py:253-256 | one iteration of the parameter loop appends one `object` scope and binds one more parameter to it |
| Parser.ObjectParamsWellFormed | pythoncodecompletion/code_complete.py:252-256 | the parameter loop keeps the arena well formed |
| Parser.DefParamsRecords | pythoncodecompletion/code_complete.py:238-256 | a def header's parameters all become variables; with an enclosing class the first is bound to that class unless a later parameter repeats its name; every other one is bound to a fresh `object` scope; no other scope changes |
| Parser.DefParamsWellFormed | pythoncodecompletion/code_complete.py:235-256 | binding a def header's parameters keeps the arena well formed |
| Parser.WithScan | pythoncodecompletion/code_complete.py:259-270 | the scan for "as" always moves forward and stays in the input |
| Parser.WithStop | pythoncodecompletion/code_complete.py:259-270 | the first NEWLINE or "as" token, with none before it |
| Parser.WithScanStopsAtFirst | pythoncodecompletion/code_complete.py:258-270 | the scan depends only on the first NEWLINE or "as": a name is recorded exactly when that token is "as" and a token other than NEWLINE follows, and it is that token's text |
| Parser.Start | pythoncodecompletion/code_complete.py:160-165 | a parse starts at position 0 with only the global scope, which is current, no dedent flags, and a well-formed arena |
| Parser.Skipped | pythoncodecompletion/code_complete.py:390-393 | a skipped statement moves reading forward, keeps the arena and stops only at the end of the stream |
| Parser.BlockOpened | pythoncodecompletion/code_complete.py:405-416 | a block keyword moves reading forward, keeps the arena and stops only at the end of the stream |
| Parser.Opened | pythoncodecompletion/code_complete.py:186-192 | after the name token, the new scope is current, in the arena, and a child of the scope that was current |
| Parser.WithHeader | pythoncodecompletion/code_complete.py:196-215 | applying a class header keeps the arena well formed and its size, and the current scope in it |
| Parser.ClassHeaderRead | pythoncodecompletion/code_complete.py:194-215 | reading a class header moves forward, never shrinks the arena and stops only at the end of the stream |
| Parser.ClassParsed | pythoncodecompletion/code_complete.py:185-215 | `_parse_class` moves forward, never shrinks the arena and stops only at the end of the stream |
| Parser.ParamsRead | pythoncodecompletion/code_complete.py:230-256 | reading a def header moves forward, never shrinks the arena and stops only at the end of the stream |
| Parser.MethodParsed | pythoncodecompletion/code_complete.py:217-256 | `_parse_method` moves forward, never shrinks the arena and stops only at the end of the stream |
| Parser.StatementParsed | pythoncodecompletion/code_complete.py:275-327 | `_parse_statement` moves forward, never shrinks the arena and stops only by a crash or at the end of the stream |
| Parser.Step | pythoncodecompletion/code_complete.py:390-425 | every branch of the loop moves forward, never shrinks the arena and stops only by a crash or at the end of the stream; the branch is chosen by `HandlerFor`, the `if`/`elif` chain on the first token in the code's order |
| Parser.ParseRun | pythoncodecompletion/code_complete.py:374-428 | the loop ends with a well-formed arena no smaller than it started with, and either crashes or reads the whole stream and ends as the stream does |
| Parser.RunAdvance | pythoncodecompletion/code_complete.py:382-428 | after one more statement the run is the statements seen so far, this one's record, and the handler's stop or the rest of the loop |
| Parser.LoopStep | pythoncodecompletion/code_complete.py:384-388 | one pass of the loop keeps the active scope equal to the scope recorded last at the target line |
| Parser.LastCaptureIsLast | pythoncodecompletion/code_complete.py:387-388 | the recorded scope is found exactly when some statement started at the target line, and it is the one recorded by the last such statement |
| Parser.ClassGrows | pythoncodecompletion/code_complete.py:185-215 | a class header only adds to the arena |
| Parser.MethodGrows | pythoncodecompletion/code_complete.py:217-256 | a def header only adds to the arena |
| Parser.StepGrows | pythoncodecompletion/code_complete.py:390-425 | no statement removes a name, a child or a scope, or renames or moves a scope |
| Parser.RunGrows | pythoncodecompletion/code_complete.py:374-428 | the whole loop only adds to the arena it starts from |
| Parser.ParseKeepsBuiltins | pythoncodecompletion/code_complete.py:160-166 | after any parse the global scope is still index 0, a MODULE scope named "__global__" holding every builtin function and type, and nothing was removed from the starting arena |
| Parser.FileParser.constructor | pythoncodecompletion/code_complete.py:160-166 | the parser ends exactly as `ParseRun` from the global scope alone says (stop, position, arena, current scope, dedent flags), its active scope is the one current when the target line was last reached (the global scope otherwise), unless its own code crashes it reads the whole stream and ends as the stream does, and the global scope stays at index 0 with every builtin function and type |
| Parser.FileParser.ActiveScope | pythoncodecompletion/code_complete.py:433-434 | the active scope is a scope of the arena, and the global scope when no target line is given |
| Parser.FileParser.NextToken | pythoncodecompletion/code_complete.py:366-372 | hands out the next token and counts a line exactly when its text is "\n"; past the end it reports the stream's ending; the counter grows by the number of "\n" tokens read |
| Parser.FileParser.ParseToEnd | pythoncodecompletion/code_complete.py:168-183 | reads up to and including the next statement terminator and returns the statement's tokens before the first comment, or reports the end of the stream; the counter grows by the "\n" tokens read |
| Parser.FileParser.FindParentScopeOfType | pythoncodecompletion/code_complete.py:329-337 | returns the nearest scope of the requested kind among the current scope and its ancestors |
| Parser.FileParser.Dedent | pythoncodecompletion/code_complete.py:339-347 | pops the dedent stack and moves to the parent scope exactly when the popped flag is set and a parent exists |
| Parser.FileParser.OpenScope | pythoncodecompletion/code_complete.py:186-193 | the next token names a new scope declared in the current scope, which becomes current (`Opened`); at the end of the stream nothing changes; the line counter counts the token read |
| Parser.FileParser.ParseClass | pythoncodecompletion/code_complete.py:185-215 | the result and the new position, arena, current scope and dedent stack are those of `ClassParsed`, and the counter counts the "\n" tokens read |
| Parser.FileParser.ClassHeader | pythoncodecompletion/code_complete.py:194-215 | reads the header as `StatementAt` says and applies it as `WithHeader` says, ending the parse at the end of the stream |
| Parser.FileParser.ApplyClassHeader | pythoncodecompletion/code_complete.py:196-215 | the bases and the one-line-body dedent change the state exactly as `WithHeader` says |
| Parser.FileParser.ParseMethod | pythoncodecompletion/code_complete.py:217-256 | the result and the new position, arena, current scope and dedent stack are those of `MethodParsed`, and the counter counts the "\n" tokens read |
| Parser.FileParser.MethodHeader | pythoncodecompletion/code_complete.py:230-256 | reads the header as `StatementAt` says and ends as `ParamsRead` says |
| Parser.FileParser.BindParameters | pythoncodecompletion/code_complete.py:235-256 | the parameters bind as `DefParams` says, relative to the nearest class scope |
| Parser.FileParser.BindObjectParams | pythoncodecompletion/code_complete.py:253-256 | the parameter loop binds each parameter to a fresh `object` scope in order |
| Parser.FileParser.ParseStatement | pythoncodecompletion/code_complete.py:275-327 | reads the rest of the statement and ends as `StatementParsed` says, i.e. applies `Assignment` to the statement; the counter counts the "\n" tokens read |
| Parser.FileParser.ParseWith | pythoncodecompletion/code_complete.py:258-272 | records the name after "as" (when one follows before a NEWLINE) as a variable of the current scope, then skips one statement, ending where that statement ends; the counter counts the "\n" tokens read |
| Parser.FileParser.ScanWith | pythoncodecompletion/code_complete.py:259-270 | the token loop ends as `WithScan` says: where it stops, the recorded name, or the end of the stream |
| Parser.FileParser.OpenDefinition | pythoncodecompletion/code_complete.py:397-404 | "class" and "def" push a True dedent flag and then end as `ClassParsed` or `MethodParsed` from that state |
| Parser.FileParser.Dispatch | pythoncodecompletion/code_complete.py:390-425 | the first token selects the handler, and the result and new state are exactly `Step` on the state before the dispatch |
| Parser.FileParser.DoParse | pythoncodecompletion/code_complete.py:374-428 | the loop from a fresh position, line counter and dedent stack ends exactly as `ParseRun` says, its active scope is the one recorded last at the target line (the earlier one if none), and the counter equals the "\n" tokens read |
| Parser.FileParser.NextStatement | pythoncodecompletion/code_complete.py:382-425 | one pass of the loop: at the end of the stream it stops and changes nothing; otherwise it reads a token, sets the active scope when the counter is at the target line, and ends as `Step` says |
| Completion.Follow | pythoncodecompletion/code_complete.py:488-505 | the walk over the dotted parts stops at a scope of the arena, either after every part or at a part, which it names |
| Completion.FollowStopsUnresolved | pythoncodecompletion/code_complete.py:488-505 | a walk that stops early stops at a part that does not resolve from the scope it reached |
| Completion.FollowAlong | pythoncodecompletion/code_complete.py:488-505 | following a path of resolving parts and then the remaining parts is following all the parts |
| Completion.CompletionsAreCandidates | pythoncodecompletion/code_complete.py:471-482 | no completion is the query itself, and every completion is a name of the global scope or of the scope the walk reached |
| Completion.NoDotQuery | pythoncodecompletion/code_complete.py:476-505 | a query without a dot offers the global names starting with it (all of them when it is blank) and the active scope's names starting with it |
| Completion.EmptyQuery | pythoncodecompletion/code_complete.py:484-486 | the empty query offers every name of the global and the active scope |
| Completion.DottedQuery | pythoncodecompletion/code_complete.py:488-505 | along resolving parts the global matches are dropped, and the answer is the reached scope's names starting with the first unresolved part |
| Completion.ResolvedQueryIsEmpty | pythoncodecompletion/code_complete.py:488-500 | when every part resolves, nothing is offered |
| Completion.StuckAnswer | pythoncodecompletion/code_complete.py:501-505 | a walk stopped at a part answers with the reached scope's names starting with it, plus the global matches when it stopped at once |
| Completion.CollectMatching | pythoncodecompletion/code_complete.py:484-486 | the filtering loop appends exactly the names that start with the prefix, or all of them |
| Completion.ResolvedAnswer | pythoncodecompletion/code_complete.py:488-507 | a walk through every part answers with the global matches when there were no parts to follow, and with nothing otherwise |
| Completion.Complete | pythoncodecompletion/code_complete.py:461-507 | the completion of a parse is ascending, excludes the query and holds exactly `CompletionSet` |
| Completion.Completer.constructor | pythoncodecompletion/code_complete.py:437-439 | a new completer stores no parses and has no active buffer |
| Completion.Completer.ParseFile | pythoncodecompletion/code_complete.py:441-449 | a parse that does not crash stores the parse `ParseRun` gives for the buffer (its arena and the active scope at the line) and makes it active, with the builtins in its global scope; a tokenizer error keeps the stored parses and activates the buffer only if it was stored before; a crash changes nothing |
| Completion.Completer.GetCompletions | pythoncodecompletion/code_complete.py:451-507 | the answer is strictly ascending and never holds the query; it is empty without an active buffer, and otherwise holds exactly `CompletionSet` of the active parse |

## Left out

- The gedit plugin and the key-binding widget (`pythoncodecompletion.py`, `keybindingwidget.py`) are user-interface code and not part of this model.
- Python's `tokenize` and `StringIO` are left out. Their output is the `TokenStream` parameter. Token positions and source lines are not modelled, since the parser uses only the kind and the text.
- Reflection (`dir`, `callable`, `__builtin__`, `keyword.kwlist`) is the `Host` parameter. Which builtins are functions and which are types is taken as given.
- `Scope.inherit` and its `copy.deepcopy` are left out, because nothing calls them. `inherited_scopes` only ever holds base-class names, which the getters skip, so `Names` is variables, methods and types. The scope's `keywords` set is left out, because no getter reads it.
- All debugging `print` output, the module-level completer `c`, the `complete` wrapper and the `__main__` sample are left out.
- The first, shadowed definition of `_get_next_token` (349-364) is dead code and not modelled.
- The second STRING branch of `_do_parse` (394-396) is unreachable, since the first STRING branch catches every string.
- The unused local `in_block_without_scope` of `_do_parse` is left out.
- Completion.Completer.ParseFile: the completer stores a value snapshot (the arena and the active scope) instead of the parser object. The completer reads nothing else from the parser.
- Completion.CollectMatching: Python iterates a set in an unspecified order. The loop picks elements in any order, and the result is stated as a set before sorting.
- Parser.Skipped: the skipped statement leaves the arena unchanged; this is stated by its body, not its contract.
- Parser.BlockOpened: the pushed flag and the unchanged arena are stated by its body, not its contract.
- Parser.ClassHeaderRead: the bases and the dedent are stated by WithHeader and ApplyClassHeader, not by this contract.
- Parser.ClassParsed: what the class header adds to the arena is stated by DeclareAdds and ClassGrows, not by this contract.
- Parser.ParamsRead: what the parameters add is stated by DefParamsRecords, not by this contract.
- Parser.MethodParsed: what the def header adds is stated by DeclareAdds, DefParamsRecords and MethodGrows, not by this contract.
- Parser.StatementParsed: what the statement records is stated by AssignmentCases, not by this contract.
- Parser.Step: what each branch does to the arena is stated by the lemmas on the handlers and by StepGrows; its own contract states progress only.
- Parser.WithHeader: the bases it sets and the flag it pops are stated by its body; its contract states that the arena stays well formed and keeps its size.
- Parser.Recorded: its own contract states well-formedness, growth and how the parse can stop; how the target is chosen is stated by AssignmentCases over Assignment.
