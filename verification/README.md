# GoSite in Dafny

GoSite is a hosting panel written in Go. This project models the parts of it that hold real
logic and proves what they promise. Each `.dfy` file is one module; `dafny verify dfyconfig.toml`
checks all of them.

## What is modelled

**The query language Splunk Lite** (`internal/observability/splunklite`). A search is parsed into
a tree of filters. The tree has two back ends: it is compiled to SQL text with positional
arguments for a query, and it is evaluated on events for the live tail.

- `Filters`, `Compile`, `Eval` are the tree and the two back ends. `Compile` produces tokens and
  arguments, in the order in which the code appends them.
- `Sql` is a parser and three-valued evaluator for the tokens that the compiler emits, with SQL's
  precedence, taking arguments from left to right. `Clauses` shows that this parser, on the emitted
  text, gives back the clause that was meant.
- `Agreement`, `Correctness`, `Applicability` relate the back ends, and `Nulls` says for which
  filters a comparison that is NULL in SQL makes a difference. `Rows` replaces the assumption
  that single comparisons agree by concrete table rows, columns and events, and `JobRows` says what
  becomes of the texts of a job. `Finding` says which rows are found and sent for a search, a value of
  a field or a number, and which sources can answer a filter. `Wildcard` compares LIKE patterns with the wildcard matching of the
  tail.
- `Search` is the lexer and the recursive-descent parser as classes with a position, `Tokens` the
  same grammar over a list of tokens, `Words` says what bare words and pipes are read as, and `RoundTrip`
  is the way from a tree to text and back.
- `QueryMerge` is the query over all four sources, `Tail` the watermarks of a live subscription to
  one or several of them.

**The boot-time tree merge** (`internal/bootstrap/init.go`): `TreeMerge`, with the file system as a
finite map from paths to files, links, directories and other entries; `MergeSuccess` says when a pass
succeeds.

**Plugins and access tokens** (`internal/service/plugin`, `pkg/pluginperm`): `Permissions` and
`Lifecycle`, a state machine over registry rows, running processes, hook targets and tokens. What
the outside answers (starting, stopping, refreshing hooks, deleting files) is arbitrary. Operations
on tokens take no lock, so checking scopes and storing them are separate moves, and so are the turns
of the loop that sweeps the tokens of a plugin when a version of it is enabled. `Versions` orders
version numbers.

**Jobs and their streams** (`internal/infra/job/worker.go`): `JobStream` interleaves the worker, whose
runner delivers the output line by line (`internal/infra/commander/exec.go`), and a polling reader
over one row; `Sse` encodes chunks and decodes them by the WHATWG HTML Living
Standard, section 9.2.6.

**Terminal dump** (`internal/terminal`): `Rolling`. **Traffic figures**
(`internal/observability/grafanalite/collector.go`): `Collector`, with `Scanning` for Go's line
scanner. **Mount table** (`internal/service/mount`): `Mount` and `S3Options`.

Where the Go code changes an object step by step the module has a class whose methods take the same
steps; each method is proved equal to a function of the old state, and the properties are proved of
these functions. Code that loops over a slice is a loop here.

## Where promises fail

Some statements that one would expect do not hold of the code. The code is modelled as it is, the
exact condition is proved, and a second lemma gives an input or a run that fails.

- A live tail and a query can disagree when a status is missing, because a comparison is then NULL in
  SQL and false in the tail. On a row without status all of them are NULL together, and query and tail
  agree, for all other leaves, exactly if the filter cannot be NULL and true then: `BareLinesAgreeIff`,
  `NullsHarmlessIff`; for example `NullUnderNot`. It is enough that none of them stands under an odd
  number of NOTs (`EvenStatusFindsAll`), but that is not needed (`NullsTogether`); it is needed if each
  of them may be NULL for itself (`AnyNullsHarmlessIff`).
- Leaving out inapplicable conditions does not only widen a filter. An ordering comparison on a
  text column is left out by the compiler but evaluated by the tail: `DroppingIsHarmlessIff`; for
  example `OrderingIsNotFound`. Without NOT and lost orderings it only widens: `NotFreeOnlyWidens`.
- Equality on a text column, and a pattern without star, is `=` in SQL and a case-folding search in
  the tail: `EqualityLeafDiffersIff`; for example `PartOfUserIsNotFound`.
- Inequality heeds upper and lower case in SQL only: `InequalityLeafDiffersIff`; for example
  `OtherCaseIsFound`.
- The status is a number in SQL and text in an equality of the tail, and SQL has numbers before all
  other text: `StatusLeafDiffersIff`; for example `StatusExamples`.
- A query looks at the columns of a job, the tail at its error, or else its output, or else its name, in
  the place of all of them: `JobLeafDiffersIff`, `JobSearchDiffersIff`; for example `OutputIsNotSent`.
- A search for a value with `%`, `_` or `*` is a pattern in SQL and plain text in the tail:
  `SearchAgreesIff`. A wildcard with a backslash means different things: `WildcardsAgreeIff`.
- The REGEXP function of the database never matches empty text, the tail does:
  `RegexpLeafDiffersIff`; for example `EmptyMessageIsNotFound`.
- `peek` of the lexer swallows an invalid regular expression, so it may show a token that `next`
  does not return: `PeekShowsNextIff`; for example `BadRegexHidesWord`. A search is accepted if the
  grammar can read it up to such an expression, and the rest is dropped: `ParserReadsTokens`; for
  example `BadRegexIsDropped`.
- docs/sequences/19-plugin-installer.md (line 428) says that only one version of a plugin can be
  enabled. `Enable` does not look at other versions (`EnableIsSingleIff`; a run that ends with two
  is `TwoVersionsEnabled`), `SwitchEnabledVersion` does (`SwitchIsSingle`). The same document speaks
  of a switch with rollback; the code has none (`SwitchOutcome`).
- A token that is stored after its scopes were checked may exceed the version that was enabled in
  between: `StoreFitsIff`; a run is `LateToken`.
- The sweep after a version was enabled breaks off when one of its tokens is revoked meanwhile, and the
  others keep scopes that the version is not granted: `BreakFitsIff`; a run is `RevokedMeanwhile`. As long
  as none is revoked by hand it does not: `QuietSweeps`. What is stored for a token whose turn is still
  to come can be overwritten: `StoredIsLostIff`; for example `ChangeIsUndone`.
- `Uninstall` marks a version installed when it cannot be stopped, although it may still be running:
  `UninstallIsSoundIff`; a run is `ProcessIsLost`.
- A query over all sources shows the wrong page when the page ends beyond row 2000: `PageIsRightIff`;
  for example `TooFar`.
- A client that resumes a tail after an event loses every row that it has not seen and that is at
  most one nanosecond younger, so also those of the same second: `ResumeLosesIff`; for example
  `EqualTimeIsLost`. With several sources it also loses older rows of other sources, and gets younger
  ones again: `ResumeAcrossSourcesIff`; for example `OtherSourceIsLostOrRepeated`. A job that comes to
  match only after a poll has passed it is never sent: `ExactlyOnce`; a run is `ChangedTooLate`.
- The done event of a failed job says `ok` if that is its error: `SucceedsIff`; a run is `FailureSaysOk`.
- The text that an SSE client puts together is the job's output (`ClientTextIsOutput`), but the done
  event cannot carry a message of several lines: `ClientSeesIff`, `DoneArrivesIff`; a run is
  `TwoLinesOfStderr`.
- A second migration pass changes the disk if a source directory stands in front of something that
  is no directory: `SecondPass`; for example `EveryPassAddsACopy`.
- A checked mount entry may not be read back: `ListedIff`; for example `AcceptedAndLost`.
- Joining a filter with an empty AND does not give what both accept: `ConjoinMeansAnd`. No search
  has one: `SearchIsFilled`.

## Model

| member | source | states |
|---|---|---|
| Filters.MergeAnd | internal/observability/splunklite/ast.go:61-91 | Joining two filters with AND, through loops that append flattened children, gives the conjunction whose meaning ConjoinMeansAnd states |
| Correctness.ConjoinMeansAnd | internal/observability/splunklite/ast.go:61-91 | The joined filter accepts an event iff both filters do, absent filters accepting everything, except exactly when one of two filters is an empty AND and the other accepts |
| Compile.FreeTextContains | internal/observability/splunklite/compile.go:282-296 | The loop over the columns yields one parenthesised OR of a LIKE for every column, with one argument each, in order |
| Compile.FreeTextRegexp | internal/observability/splunklite/compile.go:298-302 | The same for a regular expression over all columns |
| Compile.CompilePred | internal/observability/splunklite/compile.go:211-259 | The switch over operators gives the clause of a leaf, which Agreement.CompilesToShape and Rows.FaithfulLeaf speak of, or says why it has none |
| Compile.CompileNodeLoop | internal/observability/splunklite/compile.go:157-209 | The recursive compiler with its appending loops computes the clause about which CompilesToShape and TextMeansVerdict speak, errors included |
| Agreement.CompilesToShape | internal/observability/splunklite/compile.go:157-259 | Compilation fails or yields exactly the text and arguments of a well-formed clause tree |
| Clauses.ParsesShape | internal/observability/splunklite/compile.go:157-209 | In any context, SQL parses the emitted text of a clause as one unit, with the expected expression and number of placeholders: the parentheses suffice |
| Clauses.TextMeansVerdict | internal/observability/splunklite/compile.go:89-109 | Parsing the emitted text with SQL precedence and evaluating it with the arguments taken left to right gives the three-valued truth of the clause tree |
| Agreement.EvalIsHolds | internal/observability/splunklite/eval_filter.go:25-48 | The evaluator of the tail is the Boolean meaning of the tree over its leaf results |
| Agreement.VerdictIsPruned | internal/observability/splunklite/compile.go:157-209 | If leaves agree, a clause that is true in SQL makes the filter without its dropped leaves true, and one that is false makes it false |
| Finding.ApplicableIff | internal/observability/splunklite/compile.go:118-156 | A source can answer a filter iff some choice of one branch at each OR leaves only leaves that it can answer (no field, or one that it has and orders only if it is the status code) and no empty AND |
| Correctness.ApplicableNeverEmpty | internal/observability/splunklite/compile.go:89-152 | An applicable filter that compiles has exactly one clause, and that is not empty |
| Correctness.CompiledFilterIsPrunedFilter | internal/observability/splunklite/compile.go:89-109 | For every applicable filter the compiled text is one clause that parses, has as many placeholders as arguments, and matches a row only if the filter without dropped leaves accepts the event; on a row without NULLs exactly if it does |
| Correctness.BackEndsAgree | internal/observability/splunklite/eval_filter.go:11-48 | Compiler correctness: with no NULL columns and nothing dropped, query and tail accept the same rows, for every filter |
| Correctness.NotFreeIgnoresNull | internal/observability/splunklite/eval_filter.go:25-48 | Without NOT, NULL does no harm: the clause is true iff the filter holds |
| Nulls.VerdictIsTruth | internal/observability/splunklite/compile.go:157-209 | The clause has the three-valued truth of the filter that is left after dropping, over what SQL makes of the leaves |
| Nulls.NullsHarmlessIff | internal/observability/splunklite/compile.go:196-208 | For a filter that uses no leaf twice, with given leaves NULL, query and tail agree whatever the other leaves are iff the filter, going through it once, cannot be NULL in SQL and true in the tail |
| Nulls.AnyNullsHarmlessIff | internal/observability/splunklite/compile.go:196-208 | For a filter without repeated leaves and empty groups, query and tail agree whichever of the leaves that may be NULL are so, and whatever the others are, iff none of them stands under an odd number of NOTs |
| Nulls.EvenNotsCannot | internal/observability/splunklite/eval_filter.go:25-48 | Also with repeated leaves: a filter whose possibly missing leaves stand under an even number of NOTs cannot be NULL and true |
| Nulls.CompiledMeans | internal/observability/splunklite/compile.go:89-109 | The compiled text, parsed and given its arguments, has the three-valued truth of what is left of the filter, and matches iff that holds unless it can be NULL and true |
| Nulls.QueryAndTail | internal/observability/splunklite/eval_filter.go:11-48 | If leaves agree, what the query matches the tail accepts of the filter that is left, and conversely unless that can be NULL and true with the leaves that are NULL |
| Correctness.WholeQuery | internal/repository/sqlite/log_events.go:126-155 | Behind the repository's own conditions the clause stands on its own: the whole WHERE is true iff the own conditions and the clause are, each placeholder meeting its argument |
| Correctness.SiteScopeMeans | internal/observability/splunklite/compile.go:308-316 | With a site scope the tail accepts a log event iff the filter does and the site of the event contains the name, or matches it if it has a star |
| Correctness.ScopeKeepsOwnEvents | internal/observability/splunklite/service.go:633-639 | On events of the site itself, for which the tail lists rows, the scope changes nothing |
| Rows.ScopedQueryStaysInSite | internal/observability/splunklite/service.go:243-250 | A query with a site scope finds only rows of exactly that site, whatever the filter |
| Applicability.DroppingIsHarmlessIff | internal/observability/splunklite/compile.go:157-209 | For filters that use no leaf twice, what the tail accepts the query finds, for all leaf values, iff every dropped part stands where it follows; and likewise the other way round |
| Applicability.FollowsSuffices | internal/observability/splunklite/eval_filter.go:25-56 | Where dropped parts follow, an event that the tail accepts (or rejects) is accepted (or rejected) by the filter that is compiled, also if leaves repeat |
| Applicability.NotFreeOnlyWidens | internal/observability/splunklite/compile.go:157-209 | Without NOT, lost orderings and empty ANDs, what the tail accepts the compiled filter accepts, and dropped parts never held |
| Applicability.OrderingOnTextIsLost | internal/observability/splunklite/compile.go:211-259 | Counterexample: an ordering comparison on a text column is dropped from an OR; the tail accepts every event of the user, what is left of the filter none |
| Rows.OrderingIsNotFound | internal/observability/splunklite/compile.go:211-259 | The same on a table row: the tail sends its event, the compiled query does not find it |
| Wildcard.PassesCombine | internal/observability/splunklite/compile.go:268-280 | The three replacement passes amount to translating each character once |
| Wildcard.SameWithoutBackslash | internal/observability/splunklite/eval_filter.go:196-206 | Without a backslash, LIKE on the translated pattern accepts exactly what the wildcard accepts, on every one-line value |
| Wildcard.BackslashShows | internal/observability/splunklite/compile.go:268-280 | For every one-line pattern with a backslash there is a value on which LIKE and the wildcard differ |
| Wildcard.WildcardsAgreeIff | internal/observability/splunklite/compile.go:268-280 | LIKE and wildcard accept the same one-line values iff the pattern has no backslash |
| Rows.LikeContains | internal/observability/splunklite/compile.go:282-296 | LIKE on %value% is a case-folding search when the value has no LIKE metacharacter |
| Rows.FaithfulLeaf | internal/observability/splunklite/eval_filter.go:50-98 | On concrete rows of all kinds and the events made from them, a faithful comparison is true in SQL iff the tail finds it true, and NULL in SQL iff it compares a status that is missing, for every operator, over columns and over free text |
| Finding.TextIsFound | internal/observability/splunklite/compile.go:68-79 | A text without star that occurs in one of the searched texts of a row, whatever the source, is found by a query for it, and without LIKE metacharacters only there; the tail sends the row iff it occurs in what it sees |
| Finding.ValueIsFound | internal/observability/splunklite/compile.go:19-44 | For every field with text: a query for the field with a value without star finds exactly the rows that have it there, and one for the field without the value exactly the others |
| Finding.StatusIsFound | internal/observability/splunklite/compile.go:233-253 | A query that compares the status of log lines with a number by any of the six signs finds exactly those for which the numbers compare so, and the tail sends just them, except for equality |
| Finding.TypedWordIsFound | internal/observability/splunklite/search.go:406-432 | From text to row: a typed word is parsed, compiled and finds every row in whose texts it occurs, and is sent those in which the tail sees it |
| Finding.TypedStatusIsFound | internal/observability/splunklite/search.go:459-499 | From text to row: status, a sign and a number finds exactly the log lines whose status compares so |
| Finding.SearchesCompile | internal/observability/splunklite/compile.go:89-109 | Whatever text can be parsed can be compiled for every source |
| Finding.EverythingIsFound | internal/observability/splunklite/compile.go:89-99 | A search that asks for everything finds and is sent every row |
| Rows.OnlyStatusIsNull | internal/observability/splunklite/compile.go:16-44 | Only comparisons of the status are ever NULL, and only on access log lines without one |
| Rows.StatusIsThere | internal/observability/splunklite/compile.go:16-44 | On all other rows no filter can be NULL and true |
| Rows.QueryOnRow | internal/observability/splunklite/service.go:187-268 | On concrete table rows, with no assumption on the values of leaves, what a query finds the filter that is left accepts, and conversely unless that can be NULL and true with the comparisons of a missing status |
| Rows.SearchFindsWhatTailSends | internal/observability/splunklite/service.go:187-268 | On concrete table rows, what a query finds the tail sends if dropped parts follow falsehood; what the tail sends the query finds if they follow truth and the filter that is left cannot be NULL and true with the comparisons of a missing status |
| Rows.EvenStatusFindsAll | internal/observability/splunklite/service.go:187-268 | On every table row: where dropped parts follow truth and no comparison of the status stands under an odd number of NOTs, what the tail sends the query finds |
| Rows.BareLinesAgreeIff | internal/observability/splunklite/compile.go:16-44 | On an access log line without status the NULL leaves are all comparisons of the status together; query and tail agree on a filter without repeated leaves, whatever the other leaves are, iff it cannot be NULL and true then |
| Rows.NullsTogether | internal/observability/splunklite/compile.go:196-208 | Example: NOT status!=1 AND status!=2 cannot be NULL and true, though one comparison stands under one NOT |
| Rows.NullUnderNot | internal/observability/splunklite/compile.go:196-208 | Counterexample: for NOT status!=200 a log line without status is sent by the tail and not found by the query |
| Rows.EqualityLeafDiffersIff | internal/observability/splunklite/compile.go:233-244 | An equality on a text column, or a pattern on any, without star differs between query and tail iff the value occurs in the column, ignoring case, without being all of it; the query then finds less |
| Rows.InequalityLeafDiffersIff | internal/observability/splunklite/eval_filter.go:50-98 | An inequality on a text column differs iff value and column differ only in upper and lower case; the query then finds more |
| Rows.StatusLeafDiffersIff | internal/observability/splunklite/compile.go:233-253 | Comparing the numeric status with a number or with text without digits: when query and tail differ, for equality (a part of the status, or leading zeros), inequality (leading zeros) and orderings (less than text that is no number), and only then |
| Rows.StatusExamples | internal/observability/splunklite/compile.go:233-253 | Counterexamples for a line with status 200: status=20, status=0200, status<abc |
| JobRows.JobLeafDiffersIff | internal/observability/splunklite/service.go:360-383 | When query and tail differ on a comparison of the name, output, error or message of a job, for every operator that is compiled: exactly if the column and the one text that the tail sees give different answers, equality being exact in SQL and a search in the tail (for wildcards without backslash on one line, and searched values without LIKE metacharacters) |
| JobRows.JobSearchDiffersIff | internal/observability/splunklite/compile.go:68-79 | A search over all columns of a job finds whatever the tail sends, and more exactly if a column has a hit and the text that the tail sees has none |
| JobRows.OutputIsNotSent | internal/observability/splunklite/service.go:360-383 | Counterexample: a failed job is found by a word of its output and not sent |
| Rows.SearchAgreesIff | internal/observability/splunklite/compile.go:282-296 | A search in a column means the same in query and tail on all texts iff the value has no star, no percent sign and no underscore |
| Rows.PartOfUserIsNotFound | internal/observability/splunklite/eval_filter.go:50-98 | Counterexample for equality |
| Rows.OtherCaseIsFound | internal/observability/splunklite/eval_filter.go:50-98 | Counterexample for inequality |
| Rows.EmptyMessageIsNotFound | internal/repository/sqlite/db.go:44-62 | Counterexample for regular expressions |
| Rows.RegexpLeafDiffersIff | internal/repository/sqlite/db.go:44-62 | A regular expression on a column has the tail's truth value in SQL iff, for the empty pattern, the column is not NULL, and for others, the column is not an empty text that the pattern matches |
| Search.Lexer.ReadToken | internal/observability/splunklite/search.go:197-305 | The scanner, moving its position, returns the token and position of the specification |
| Search.SplitPipes | internal/observability/splunklite/search.go:50-116 | The loop with its flags splits the query at pipes outside quotes and regular expressions, or reports what is left open |
| Search.Parser.Or | internal/observability/splunklite/search.go:321-339 | The recursive descent terminates on every input and computes the parse of the specification |
| Search.RunParser | internal/observability/splunklite/search.go:18-48 | Parsing a whole search, including the demand that nothing is left over |
| Words.FieldWordIsRead | internal/observability/splunklite/search.go:459-499 | For every name, every sign and every bare value that does not make the sign another one, the search is the comparison of that field, in small letters, by that sign with that value, and a pattern for an equality with a star |
| Words.PlainWordIff | internal/observability/splunklite/search.go:406-432 | A bare word is searched as it is iff it is no name, sign and value |
| Words.ValueBehindIsRead | internal/observability/splunklite/search.go:406-457 | A name and a sign take the word, quoted text or regular expression behind them as their value, and without one are just a word |
| Words.WordsAreRead | internal/observability/splunklite/search.go:341-366 | Any number of words with blanks between them are a conjunction, each read for itself |
| Words.PipedWordIsRead | internal/observability/splunklite/search.go:18-116 | A word, a pipe and a command is the search for the word followed by the command |
| Words.PipeIsReadIff | internal/observability/splunklite/search.go:118-170 | A command is read iff it is head with a positive number of 64 bits, or sort with a field |
| Words.PipesAreReadEach | internal/observability/splunklite/search.go:18-48 | The commands are those of the parts in their order, and one that cannot be read is an error |
| Words.EverythingIsAsked | internal/observability/splunklite/search.go:18-48 | A blank search, a star and a search that begins with a pipe ask for everything |
| Words.HeadIsRead | internal/observability/splunklite/search.go:118-170 | head takes the number behind it, for every positive number of 64 bits |
| Words.SortIsRead | internal/observability/splunklite/search.go:118-170 | sort takes the field behind it, downwards iff it has a minus sign in front |
| Words.EmptyPartsDoNotCount | internal/observability/splunklite/search.go:100-116 | Empty parts between pipes are passed over, the others keep their order |
| Tokens.ParserReadsTokens | internal/observability/splunklite/search.go:317-404 | On every text the parser that peeks into it gives what the grammar gives on the list of tokens and faults: it accepts the search iff the grammar reads all of it, or all up to a lexical fault |
| Tokens.CleanIff | internal/observability/splunklite/search.go:197-305 | The list has no fault iff scanning the text never meets a quote or expression that is not closed or does not compile |
| Tokens.BadRegexIsDropped | internal/observability/splunklite/search.go:317-404 | Counterexample: a search that ends in an expression that does not compile is accepted without it |
| Tokens.SearchIsFilled | internal/observability/splunklite/search.go:18-48 | No search is parsed to a filter with an empty group |
| Tokens.ScannersAgree | internal/observability/splunklite/search.go:50-116 | If splitting at pipes succeeds, lexing the search part meets no unterminated quote or regular expression |
| Tokens.PeekShowsNextIff | internal/observability/splunklite/search.go:181-189 | peek shows the token that next returns except exactly when a closed regular expression that does not compile is ahead and behind it is neither the end nor another lexical fault |
| Tokens.NothingReadIff | internal/observability/splunklite/search.go:197-305 | The lexer returns no token exactly at the end of the text and at a quote or regular expression that is not closed or does not compile |
| Tokens.CleanPeekShowsNext | internal/observability/splunklite/search.go:181-189 | On text without lexical faults peek always shows the next token |
| Tokens.BadRegexHidesWord | internal/observability/splunklite/search.go:181-189 | Counterexample: behind an expression that does not compile, peek shows the end and next a word |
| RoundTrip.UnescapeEscaped | internal/observability/splunklite/search.go:307-315 | The two replacement passes invert the escaping of quotes and backslashes on every string |
| RoundTrip.FlattenFixedIff | internal/observability/splunklite/search.go:321-366 | The trees that the parser's merging of ORs leaves alone are exactly the canonical ones |
| RoundTrip.FlattenKeepsMeaning | internal/observability/splunklite/search.go:321-339 | Merging nested ORs keeps the meaning of every filter |
| RoundTrip.TokensParse | internal/observability/splunklite/search.go:321-432 | The tokens of any writable tree, followed by anything, parse to that tree with merged ORs |
| RoundTrip.RenderLexes | internal/observability/splunklite/search.go:197-305 | The parenthesised, quoted text of a tree lexes to its tokens, wherever it stands |
| RoundTrip.RenderParsesBack | internal/observability/splunklite/search.go:18-48 | Writing any writable tree and parsing the text gives the tree with merged ORs and no pipes |
| RoundTrip.RoundTripIff | internal/observability/splunklite/search.go:317-432 | The text of a tree parses back to the very tree iff the tree is canonical |
| QueryMerge.NewestOfMerge | internal/observability/splunklite/service.go:270-331 | The newest k of two merged lists are among the newest k of each |
| QueryMerge.PageIsRight | internal/observability/splunklite/service.go:270-331 | For every order of arrival and every way to break ties, the page shows the times of the page of the one sorted table |
| QueryMerge.PageIsRightIff | internal/observability/splunklite/service.go:270-277 | For the four tables, whatever they hold, the page is always right iff offset + limit is at most 2000 |
| QueryMerge.SliceMeans | internal/observability/splunklite/service.go:317-333 | A page begins at the offset and is as long as the limit, as far as there are events |
| QueryMerge.TooFar | internal/observability/splunklite/service.go:270-277 | Counterexample: one of the four tables holds offset + limit rows, and the page is too short |
| QueryMerge.PipesChoose | internal/observability/splunklite/pipes.go:11-25 | Pipes only choose events of the page, as many as the smallest head allows, and without a sort the first ones |
| QueryMerge.PipesInOrder | internal/observability/splunklite/pipes.go:11-25 | Each pipe is applied to what those before it leave |
| QueryMerge.QueryAll | internal/observability/splunklite/service.go:312-333 | The loop over arrivals fails iff one of them is an error, and else cuts a page out of the arrived rows whose times are the slice of the sorted times, and applies the pipes to it |
| Tail.ExactlyOnce | internal/observability/splunklite/service.go:577-601 | After any insertions, changes and polls, and one more poll, a row has been sent exactly once iff it was newer than the watermark as it came and matched as a poll came across it; rows were sent in order of time; if no row changes, matching is enough |
| Tail.RunDelivers | internal/observability/splunklite/service.go:633-691 | Over every run the watermark never decreases and the rows sent are exactly those due that matched when the watermark passed them, each once |
| Tail.ResumeLosesIff | internal/observability/splunklite/service.go:551-575 | When a client breaks off after any prefix of what was sent and resumes, then after every run a row that it had not seen is sent iff it is more than one nanosecond younger than the last one seen and matches as a poll comes across it |
| Tail.ComingBack | internal/observability/splunklite/service.go:558-571 | A client that comes back without naming an event: within thirty seconds it is sent, after every run, exactly the matching rows newer than where the previous subscription stopped, and none twice; otherwise, as at first, only rows newer than the present moment |
| Tail.SeenIsNotRepeated | internal/observability/splunklite/service.go:551-575 | What the client saw before it broke off is not sent again over any run |
| Tail.EqualTimeIsLost | internal/observability/splunklite/service.go:551-575 | Counterexample: of two matching rows of one second the client sees the first, resumes, and over no run gets the second |
| Tail.ResumeAcrossSourcesIff | internal/observability/splunklite/service.go:536-601 | With any number of sources, after resuming behind any event of the merged stream and after every run, a row of any source is sent iff it is more than one nanosecond younger than that event and matches as a poll comes across it, whether the client had seen it or not |
| Tail.OtherSourceIsLostOrRepeated | internal/observability/splunklite/service.go:551-601 | Counterexample: of two sources the second has an older row; a client that breaks off before it never gets it, and one that breaks off behind it gets the newer row twice |
| Tail.ChangedTooLate | internal/observability/splunklite/service.go:662-673 | Counterexample: a job that comes to match after the poll that passed it is never sent |
| Tail.Subscription.List | internal/observability/splunklite/service.go:633-673 | Listing the newer rows is the moment at which a poll counts as done in the model |
| Tail.Subscription.SendNext | internal/observability/splunklite/service.go:577-601 | Sending the listed rows one by one, while rows go on arriving and changing, comes to what that poll promised and keeps the delivery invariant |
| Tail.Subscription.MoveCursor | internal/observability/splunklite/service.go:577-601 | At the end of the poll the stored watermark and the rows sent are those of the model, also if rows arrived since the listing |
| TreeMerge.TakenNames | internal/bootstrap/init.go:490-521 | Pigeonhole: the conflict names of an entry all differ, so not more of them are taken than the disk has entries |
| TreeMerge.FindSlot | internal/bootstrap/init.go:490-521 | The search for a conflict name ends on every disk, at the first name that is free or holds the same file or link, all earlier names being taken |
| TreeMerge.CopyMirrors | internal/bootstrap/init.go:523-581 | Copying to a free name keeps all that was there, adds nothing elsewhere, meets no conflict, and if it succeeds holds the complete entry |
| TreeMerge.MigrateKeeps | internal/bootstrap/init.go:412-439 | Any step, successful or not, leaves every existing entry as it was; a successful one stores its entry at its place, or under a conflict name if its place held something else |
| TreeMerge.NothingIsLost | internal/bootstrap/init.go:362-410 | The migration overwrites and removes nothing, adds nothing at conf.d of the live tree, and after success every regular file and link of the source is found with equal content at its place or in the conflict tree |
| MergeSuccess.PassSucceedsIff | internal/bootstrap/init.go:362-581 | A pass succeeds iff nothing on the path of the live directory is anything but a directory and, entry by entry, no place that is needed, nor a conflict name where the place is taken, is below something that is no directory |
| MergeSuccess.FirstPassSucceeds | internal/bootstrap/init.go:362-581 | Without a conflict tree, and with no source name like a conflict name, a pass succeeds whenever the live directory can be made, whatever else is on the disk, and keeps every regular file and link |
| TreeMerge.SecondPass | internal/bootstrap/init.go:362-393 | After a pass that succeeded, a second one that succeeds leaves the disk as it is iff no source directory stands in front of something that is no directory (TopClash), and without such a clash it does so in any case |
| TreeMerge.EveryPassAddsACopy | internal/bootstrap/init.go:490-521 | Counterexample: with a source directory in front of a file, every pass succeeds and adds one more copy |
| TreeMerge.Host.MigrateInto | internal/bootstrap/init.go:362-393 | The code with calls that may fail at any point: always only additions, on success the pass of the model, and without a failing call success iff the model succeeds |
| TreeMerge.Host.PreserveConflict | internal/bootstrap/init.go:490-521 | The loop over attempts terminates, never overwrites, on success does what the model's step does, and without a failing call succeeds iff that does |
| TreeMerge.Host.CopyEntry | internal/bootstrap/init.go:523-581 | Copying with faults, also broken-off copies that cannot be removed, keeps all existing entries, and without a failing call succeeds iff the model's copy does |
| Permissions.SubsetOfManifest | pkg/pluginperm/pluginperm.go:68-86 | The loops decide whether every scope, trimmed, is granted by the manifest |
| Permissions.Intersect | pkg/pluginperm/pluginperm.go:98-118 | The loops compute the granted scopes in order; CommonMeans says what that is |
| Permissions.CommonMeans | pkg/pluginperm/pluginperm.go:98-118 | The cut-down list is a subsequence with exactly the granted scopes |
| Permissions.NormalizeScopes | internal/service/plugin/integration_token.go:381-405 | The loop with its set accepts and rejects as NormalizedIff says |
| Permissions.NormalizedIff | internal/service/plugin/integration_token.go:381-405 | A scope list is accepted iff it names a scope and only known ones; the result names each of them once |
| Permissions.SubsetIff | pkg/pluginperm/pluginperm.go:68-86 | Scopes are granted iff each is, without blanks around, one of the permissions without blanks around, and none is blank |
| Permissions.DistinctInOrder | internal/service/plugin/integration_token.go:381-405 | Accepted scopes are in the order in which they are first named |
| Lifecycle.EnableIsSound | internal/service/plugin/service.go:609-657 | Enabling keeps: nothing half done, enabled versions run, other running versions say that compensation failed, hooks only on enabled versions; whatever fails |
| Lifecycle.DisableIsSound | internal/service/plugin/service.go:668-701 | Disabling keeps the same |
| Lifecycle.SwitchIsSound | internal/service/plugin/service.go:704-770 | Switching keeps the same |
| Lifecycle.UninstallIsSoundIff | internal/service/plugin/service.go:773-809 | Uninstalling keeps the same iff it does not fail to stop a version that is running |
| Lifecycle.EnabledIff | internal/service/plugin/service.go:609-657 | Exactly which versions are enabled after enabling: those that were, and this one if it is compatible, acknowledged, installed or failed without leaving a process, and comes up |
| Lifecycle.RunPermits | internal/service/plugin/service.go:609-657 | Over every run each enabled version is compatible and what it asks for is acknowledged |
| Lifecycle.EnableEnds | internal/service/plugin/service.go:623-657 | From the answers of the outside: what the row says, whether the version runs, whose hooks are called; a version that did not come up may be tried again iff it does not run |
| Lifecycle.DisableEnds | internal/service/plugin/service.go:668-701 | The same for disabling |
| Lifecycle.UninstallEnds | internal/service/plugin/service.go:773-809 | The same for uninstalling |
| Lifecycle.InstallIff | internal/service/plugin/service.go:435-584 | When installing changes something, and what the row then says |
| Lifecycle.PurgeIff | internal/service/plugin/service.go:586-598 | Only the row of an uninstalled version is purged |
| Lifecycle.UninstallRevokesIff | internal/service/plugin/service.go:805-829 | Uninstalling revokes exactly the tokens of the plugin, and only if every other version of it is uninstalled and everything works; no other token changes |
| Lifecycle.GoneForGood | internal/service/plugin/service.go:805-829 | When the last version has gone the tokens that its plugin had stay revoked over every run |
| Lifecycle.ProcessIsLost | internal/service/plugin/service.go:773-809 | Counterexample: a run from the empty registry after which a version runs that is marked installed |
| Lifecycle.EnableIsSingleIff | internal/service/plugin/service.go:609-657 | Enabling leaves at most one enabled version per plugin iff it is not let through beside another enabled version |
| Lifecycle.TwoVersionsEnabled | internal/service/plugin/service.go:609-657 | Counterexample: a run from the empty registry that ends with two enabled versions of a plugin |
| Lifecycle.SwitchIsSingle | internal/service/plugin/service.go:704-770 | Switching never leads from at most one enabled version to two |
| Lifecycle.SwitchOutcome | internal/service/plugin/service.go:704-770 | Which version is enabled after a switch, from the row and the answers of the outside: the new one, the old one, or none |
| Lifecycle.SwitchRefused | internal/service/plugin/service.go:718-748 | A switch to a version that may not be switched to changes nothing, and one whose configuration cannot be migrated only says so |
| Lifecycle.ReconciledMeans | internal/service/plugin/integration_token.go:232-275 | Reconciling takes a subsequence of a token's scopes within the manifest, revokes a token iff nothing is left, and never touches a revoked one |
| Lifecycle.EnableFits | internal/service/plugin/service.go:653-655 | Enabling leaves at most the tokens of its plugin to be swept, and a sweep that nothing interrupts leaves every working token within the permissions of every enabled version |
| Lifecycle.GrantedIff | internal/service/plugin/integration_token.go:60-72 | Scopes pass the check iff a version is enabled, one is named, and all that are named are known and among its permissions |
| Lifecycle.CheckedIsGranted | internal/service/plugin/integration_token.go:60-163 | Scopes that pass the check are known, not empty, and within every enabled version, while there is one |
| Lifecycle.StoreFitsIff | internal/service/plugin/integration_token.go:60-163 | Storing scopes that were checked at some time before leaves working tokens within every enabled version, after the sweeps under way, iff the scopes are still within every enabled version of the plugin or a sweep will still see them |
| Lifecycle.LateToken | internal/service/plugin/integration_token.go:60-99 | Counterexample: a run from the empty registry in which a switch ends between check and store, after which a working token exceeds the enabled version |
| Lifecycle.BreakFitsIff | internal/service/plugin/integration_token.go:232-275 | When a sweep breaks off, by a token that was revoked meanwhile or by a failing read or write, the working tokens are within every enabled version iff those it had not come to are already |
| Lifecycle.RevokedMeanwhile | internal/service/plugin/integration_token.go:232-275 | Counterexample: a run from the empty registry in which a listed token is revoked before its turn, after which another one exceeds the enabled version |
| Lifecycle.QuietSweeps | internal/service/plugin/integration_token.go:232-275 | Over every run in which no token of the plugin is revoked by hand and reads and writes work, none of its sweeps breaks off, whatever tokens are created or changed in between |
| Lifecycle.StoredIsLostIff | internal/service/plugin/integration_token.go:257-267 | Scopes that are stored for a token whose turn comes next are overwritten iff its scopes as listed exceed the version and something else is left of them |
| Lifecycle.ChangeIsUndone | internal/service/plugin/integration_token.go:257-267 | Counterexample: a change within what the version is granted is undone by the sweep |
| Lifecycle.RunKeepsInvariant | internal/service/plugin/service.go:435-809 | Over every run of all operations, with every pattern of failures and any operations between check and store and between the turns of sweeps: if Enable is not called beside an enabled version, Uninstall does not lose track, what is stored is still granted or will be swept, and sweeps break off only where nothing is left to do, all of the above holds, and working tokens that no sweep has still to come to never exceed the enabled manifest |
| Lifecycle.FromTheStart | internal/service/plugin/service.go:435-809 | The same from the empty registry; so whenever a plugin is not being swept none of its working tokens exceeds its enabled version |
| Lifecycle.StepNarrows | internal/service/plugin/integration_token.go:121-275 | Only an explicit change of scopes, or a sweep that writes an outdated list, gives a token anything: every other operation takes a subsequence |
| Lifecycle.RevokedForever | internal/service/plugin/integration_token.go:166-186 | Over every run a revoked token stays as it is |
| Lifecycle.Service.InstallVersion | internal/service/plugin/service.go:435-584 | Which rows may be installed over, what a valid or invalid artifact leaves, and when success is reported |
| Lifecycle.Service.FindForEnable | internal/service/plugin/service.go:833-858 | The version that is named, or else the one that a stable sort of the installable versions, newest first, puts in front; none iff there is none |
| Versions.CompareIsOrder | internal/service/plugin/service.go:1187-1211 | Comparing versions is antisymmetric and transitive, also strictly, for all texts |
| Versions.NewerIff | internal/service/plugin/service.go:1187-1211 | Of versions written with three numbers the newer is the one with the greater first number, or then second, or then third, with or without v in front and whatever is behind a dash |
| Versions.InFrontIsUnique | internal/service/plugin/service.go:839-846 | Exactly one place can come out in front of the sort |
| Versions.Newest | internal/service/plugin/service.go:839-846 | The version in front is found, whatever the versions are |
| Lifecycle.Service.EnableVersion | internal/service/plugin/service.go:600-657 | The steps with their intermediate states have the net effect of the model up to the sweep and report success exactly if the plugin was not locked and everything worked |
| Lifecycle.Service.DisablePlugin | internal/service/plugin/service.go:659-701 | The steps have the net effect of the model, and success is reported exactly if the plugin was not locked and all of them worked |
| Lifecycle.Service.SwitchEnabledVersion | internal/service/plugin/service.go:704-770 | The steps have the net effect of the model; success is reported exactly if the plugin was not locked and the version was enabled already or everything worked, and then it is enabled |
| Lifecycle.Service.UninstallVersion | internal/service/plugin/service.go:773-809 | The steps have the net effect of the model; success is reported exactly if the plugin was not locked and the version was stopped and deleted, and then it does not run; all tokens of the plugin are revoked if then every version of it is uninstalled, and otherwise none changes |
| Lifecycle.Service.ListActive | internal/service/plugin/integration_token.go:232-236 | Listing the working tokens, in any order, is the first move of a sweep |
| Lifecycle.Service.ReconcileNext | internal/service/plugin/integration_token.go:237-273 | One turn of the loop, with whatever happened since the listing, is the next move, and reports failure exactly if the sweep breaks off |
| Lifecycle.Service.ReconcileAfterSwitch | internal/service/plugin/integration_token.go:232-275 | The whole loop, if nothing comes between its turns, reconciles each working token once, whatever their order |
| Lifecycle.Service.CheckGrant | internal/service/plugin/integration_token.go:60-72 | The check accepts exactly what the model grants, and returns the scopes as they may be stored |
| Lifecycle.Service.InsertToken | internal/service/plugin/integration_token.go:81-90 | Inserting a token with checked scopes is the store of the model |
| Lifecycle.Service.ChangeScopes | internal/service/plugin/integration_token.go:121-163 | UpdateScopes, if nothing comes between its steps: it succeeds iff the scopes are granted and the token is the plugin's own and works, the token then has exactly the normalised scopes, which the enabled version is granted, nothing changes otherwise, and the invariant is kept |
| Lifecycle.Service.StoreScopes | internal/service/plugin/integration_token.go:147-157 | Writing checked scopes is the store of the model, which leaves a token alone that was revoked in between |
| JobStream.RunIsConsistent | internal/infra/job/worker.go:98-238 | The joint invariant of row, worker and reader holds over every interleaving, whatever access fails |
| JobStream.StreamIsComplete | internal/infra/job/worker.go:175-238 | In every run the chunks sent are a prefix of the row's output, nothing is sent while the job waits, and with the done event they are all of it |
| JobStream.DoneIsFinal | internal/infra/job/worker.go:98-172 | When the done event is sent no step is possible any more, so the output sent is the final one |
| JobStream.LookingAgainFindsNothing | internal/infra/job/worker.go:211-217 | The second look at the row before the done event never finds more output |
| JobStream.OutputOnlyGrows | internal/repository/sqlite/job.go:120-170 | Over every run of worker and reader, from the moment the job runs its output only grows, and once it is over its row never changes |
| JobStream.SucceedsIff | internal/infra/job/worker.go:140-172 | Over every run the job has succeeded iff its command exited with code zero without an error of the runner and that was recorded; the done event says what the row says, and ok iff it succeeded or failed with just that word |
| JobStream.OverIff | internal/infra/job/worker.go:98-172 | Over every run the job is over iff something has ended it, and its error is the reason: nothing to run, a hook, the error stream as far as it arrived, or the runner |
| JobStream.OutputIsWhatArrived | internal/infra/job/worker.go:125-131 | Over every run the output of a streaming job that has started is the line with its command and every line that arrived and was stored, of both streams, in order |
| JobStream.OutputIsWhatWasFound | internal/infra/job/worker.go:132-143 | With a runner that returns everything at the end the output is the line with the command and the two streams, without blanks around, on different lines |
| JobStream.ClientSeesIff | internal/infra/job/worker.go:175-251 | A client that reads by the standard sees one message for each chunk and then the done event with its message iff that message is a single line |
| JobStream.ClientTextIsOutput | internal/infra/commander/exec.go:31-80 | Over every run from submission, the messages together are what was sent, and with the done event the whole output, with line ends normalised: as the runner delivers whole lines, no CRLF is ever cut |
| JobStream.TwoLinesOfStderr | internal/infra/job/worker.go:138-238 | Counterexample: a run in which a command fails after two lines of error output and the done event does not arrive with its message |
| JobStream.FailureSaysOk | internal/infra/job/worker.go:144-232 | Counterexample: a run in which a command fails and the done event says ok |
| JobStream.Job.Work | internal/infra/job/worker.go:98-172 | Each turn of the worker, by the row updates of the repository, is a step of the model |
| JobStream.Job.PollRow | internal/infra/job/worker.go:187-211 | Each turn of the reader's loop is a step of the model |
| Sse.TwoReplacements | internal/infra/job/worker.go:244-245 | The two replacements turn every CRLF and every other CR into LF |
| Sse.ChunkArrives | internal/infra/job/worker.go:240-251 | Any non-empty chunk decodes to one message with the chunk, line ends normalised, and leaves the decoder as it was |
| Sse.NormOfParts | internal/infra/job/worker.go:240-251 | Normalising two parts gives the normalised whole iff the cut is not within CRLF, where it gives one line end too many |
| Sse.DoneArrivesIff | internal/infra/job/worker.go:218-232 | The done event carries its message iff the message is a single line |
| Sse.WriteSSEData | internal/infra/job/worker.go:240-251 | The loop over the split lines writes the frame of which ChunkArrives speaks |
| Rolling.RunIsFaithful | internal/terminal/rolling.go:42-113 | After any chunks the dump is a suffix of the stream, all of it as long as it fits, at most max and at least min(total, 3·max/4), and the window ends at the last byte with length min(total, max) |
| Rolling.WindowMovesOn | internal/terminal/session.go:335-347 | The window never moves back |
| Rolling.RollingFile.Append | internal/terminal/rolling.go:42-81 | Appending, with a trim when the limit is passed, is the step of which RunIsFaithful speaks |
| Rolling.Session.Receive | internal/terminal/session.go:322-357 | Each read keeps dump and window faithful, and the chunk's number is its position in the stream |
| Rolling.Session.Snapshot | internal/terminal/session.go:306-314 | A snapshot is the end of the stream up to its end number, no longer than its window, at least three quarters of the limit, and everything as long as that fits |
| Collector.BucketsCount | internal/observability/grafanalite/collector.go:209-240 | Each bucket counts the parsed lines of its five minutes and site and adds up their bytes, and counts those of each status family, which never exceed the requests |
| Collector.PassCounts | internal/observability/grafanalite/collector.go:63-165 | A pass adds to each bucket of the table the requests, bytes and status families of the lines it reads, summed over all logs of the site, and to no other |
| Collector.SiteOfLog | internal/observability/grafanalite/collector.go:248-256 | The log named after a site belongs to it, and the one without a name to the default site |
| Collector.OthersAreNotRead | internal/observability/grafanalite/collector.go:103-120 | Only files with the name of an access log are read |
| Collector.ReadLogFailsIff | internal/observability/grafanalite/collector.go:128-165 | Reading a log fails iff it is an access log and a mebibyte without a line feed was added to it |
| Collector.TruncatedIff | internal/observability/grafanalite/collector.go:242-246 | A bucket begins at a multiple of five minutes and holds the times up to the next |
| Collector.DefaultIsShared | internal/observability/grafanalite/collector.go:248-256 | Two logs may belong to one site: access.log and access-default.log |
| Collector.TwoPassesAreOne | internal/observability/grafanalite/collector.go:63-102 | After a pass, and growth by whole lines, the next pass comes to what one pass would have come to |
| Collector.PassesAreOne | internal/observability/grafanalite/collector.go:63-165 | The same for any number of passes over growing logs, some of which may fail |
| Collector.TableCounts | internal/observability/grafanalite/collector.go:63-165 | So after any passes over growing logs and a last one that works the table has gained the figures of all lines of all logs |
| Collector.CallsAreOne | internal/observability/grafanalite/collector.go:63-102 | The same with the purge that ends each call: calls with cutoffs that move on leave what one call with the last cutoff leaves |
| Collector.CallPurges | internal/observability/grafanalite/collector.go:96-102 | After a call that works the table holds exactly the buckets of the pass from the cutoff on |
| Collector.TrafficCollector.Run | internal/observability/grafanalite/collector.go:63-102 | One call over all logs adds its buckets to the table, moves the offsets and purges what is older than the cutoff, or changes nothing |
| Collector.TrafficCollector.ReadFromOffset | internal/observability/grafanalite/collector.go:128-165 | Reading one log from its offset, from the start if it became shorter, fails iff a new line is too long |
| Collector.TrafficCollector.ConsumeLine | internal/observability/grafanalite/collector.go:209-240 | One line goes into the bucket of its five minutes, or nowhere if it does not parse |
| Collector.TrafficCollector.Store | internal/repository/sqlite/traffic_metrics.go:34-50 | The upserts, in any order, add the buckets to the table |
| Scanning.LinesOfParts | internal/observability/grafanalite/collector.go:150-157 | Lines of a text that is cut behind a line end are the lines of its parts |
| Scanning.LinesAre | internal/observability/grafanalite/collector.go:150-157 | Lines end at line feeds and lose one carriage return in front of them; the last one need not be ended, and an empty rest is no line |
| Scanning.TooLongIff | internal/observability/grafanalite/collector.go:150-160 | The scanner fails iff somewhere the limit is reached without a line feed |
| Mount.NormalizeIsNormal | internal/service/mount/service.go:262-301 | A checked entry has non-empty fields without outer blanks and without the four rejected characters, an absolute directory and two numbers |
| Mount.NormalizeKeepsFields | internal/service/mount/service.go:262-301 | Each field of a checked entry is that field of the entry without outer blanks, or its default where there was nothing |
| Mount.NormalIsKept | internal/service/mount/service.go:262-301 | A clean entry with an absolute directory and two numbers passes the checks as it is |
| Mount.NormalizeTwice | internal/service/mount/service.go:262-301 | Checking twice is checking once |
| Mount.FormatParsesIff | internal/service/mount/service.go:242-260 | A checked entry is read back from its line iff no field has a blank inside, and else the line is no entry |
| Mount.ReadWrite | internal/service/mount/service.go:203-235 | Clean lines that are written are read back |
| Mount.ListedIff | internal/service/mount/service.go:203-301 | A table of checked entries that is written is listed again iff no field has an odd blank inside, no device begins with # and no line exceeds the scanner's buffer |
| Mount.AcceptedAndLost | internal/service/mount/service.go:203-301 | Counterexamples: a device that looks like a comment and a vertical tab in the options pass the checks and are not listed |
| Mount.AddIff | internal/service/mount/service.go:66-94 | An entry is added iff it passes the checks, the table can be read, and no listed entry has its device and directory |
| Mount.DeleteAndUpdateIff | internal/service/mount/service.go:96-177 | Deleting and updating work iff the lookup is well-formed and the entry is listed, and for an update the new one passes the checks |
| Mount.KeptPasswordIs | internal/service/mount/service.go:96-122 | An update keeps the password file of the first entry listed with the device and directory |
| Mount.AddListsIff | internal/service/mount/service.go:66-94 | An added entry is listed behind the others iff it lasts in this sense |
| Mount.UpdateListsIff | internal/service/mount/service.go:96-143 | An update exchanges the first matching entry in the list iff the new one lasts |
| Mount.DeleteLists | internal/service/mount/service.go:146-177 | Deleting takes all matching entries from the list and no other |
| Mount.AddThenDelete | internal/service/mount/service.go:66-177 | Deleting what was just added succeeds and restores the list |
| Mount.MountTable.AddEntry | internal/service/mount/service.go:66-94 | The code of Add, with the preparation of S3 entries that may fail and the search for duplicates, has the effect of the model and reports success exactly if it did |
| Mount.MountTable.UpdateEntry | internal/service/mount/service.go:96-143 | The code of Update has the effect of the model, an S3 entry keeping the password file of the first matching one |
| Mount.MountTable.DeleteEntry | internal/service/mount/service.go:146-177 | The code of Delete, with its filtering loop, has the effect of the model |
| S3Options.OptionsRoundTripIff | internal/service/mount/s3.go:103-149 | The options give back endpoint, region, path style and password file iff none has a comma, none ends in a blank and the region does not begin with one |
| S3Options.BuildOptions | internal/service/mount/s3.go:103-123 | The appending code builds the options of which OptionsRoundTripIff speaks, from the normalised endpoint, and fails iff normalising it fails |
| S3Options.ReadOptions | internal/service/mount/s3.go:135-149 | The loop over the parts reads them |

## Left out

- SQL text is modelled as tokens, not characters; the parser covers the operators that the compiler
  and the repository emit.
- Letters are folded as in ASCII, and field names are made of ASCII letters and digits. Regular
  expressions, time formats and the access log's patterns are abstract functions or predicates.
- Rows.SearchFindsWhatTailSends: is for rows on which each single comparison is faithful; where one is
  not is said by the lemmas about leaves under "Where promises fail".
- Applicability.DroppingIsHarmlessIff: the "only if" direction is for filters that use no leaf twice;
  a repeated leaf can cancel what is dropped.
- RoundTrip.RoundTripIff: speaks of trees with quoted or regular-expression leaves that can be written
  as text at all; the predicate Writable says which.
- Rows.StatusLeafDiffersIff: a value with digits that is no plain number, such as 2xx or 1e2, is not
  covered; what SQLite makes of it is left arbitrary.
- Nulls.NullsHarmlessIff, Nulls.AnyNullsHarmlessIff: the "only if" direction is for filters that use no
  leaf twice; QueryAndTail and EvenNotsCannot hold for all filters.
- Lifecycle.RunKeepsInvariant: registry and token writes succeed, and a Stop that fails leaves the
  process running. Failures of writes inside Enable overwrite the record with that of the failed call.
  Operations on a plugin's versions come one at a time, as the code locks per plugin (on different
  plugins they may interleave between their steps there); those on tokens take no lock, and are split
  into check and store, as sweeps are into turns. Revoking the tokens of a removed plugin is one
  statement in the database, and one move.
- JobStream.StreamIsComplete: one worker, so a job that is queued once.
- Collector.PassesAreOne: logs grow by whole lines; a last line that is read before it is complete is
  counted as two. Failures of the database between upserts are not modelled.
- Rolling.RunIsFaithful: appends succeed and the session starts with an empty dump.
- Tail.ExactlyOnce: one subscriber per source and site; concurrent ones share a watermark in the code.
  The watermark moves as the rows are listed: rows that arrive before it is stored, and are no newer
  than the newest one listed, are not due.
- QueryMerge.PageIsRight: speaks of the times of rows, because rows of equal time come in any order.
- QueryMerge.QueryAll: the sort pipe is some reordering, because its descending comparator is no order.
- The tree merge takes links on the way to a destination for obstacles, while the operating system
  would follow them; permissions and times of entries are not modelled, and equal checksums stand for
  equal content.
- Mount.MountTable.AddEntry: how an S3 entry is prepared from its settings is an arbitrary function that
  may fail; S3Options models the options it writes. Writing the password file itself is not modelled.
- Mount.MountTable.UpdateEntry: the same.
- Mount.MountTable.DeleteEntry: does not model unmounting, whose result is ignored, and the removal of
  the password file.
- Startup reconciliation, bundled plugins, signatures, manifests beyond their permissions, and plugin
  configuration are not part of the model.
- The in-memory hook dispatcher keeps one target per plugin; the model keeps the set of enabled
  versions that it is given, of which that target is one.
- Sequence numbers are unbounded, and the float in the trim is taken as the exact three quarters.
- S3 credentials are not modelled, and the normalisation of endpoints is an abstract function.
- Saved queries, HTTP handlers, terminals' broadcast, certificates, Docker and nginx would add only
  easy members or are calls into other programs.
