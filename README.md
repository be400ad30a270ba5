# DataSourceInitializer, modelled in Dafny

A model of the Spring Batch test fixture `DataSourceInitializer`. It sets up a
database schema from SQL scripts when the bean is initialised (`afterPropertiesSet`)
and tears it down when the bean is destroyed (`destroy`). The model has two parts.

- **Running a script** (`doExecuteScript`, `stripComments`). The script's lines
  are read. A line is dropped when its raw text starts with `//` or `--`. Every
  kept line is joined back with a line feed after it, and the text is split on
  `;`. Each piece is trimmed, and a blank piece is skipped. Every other piece is
  executed in its own transaction. A data-access failure of a statement whose
  upper-cased text starts with `DROP` is swallowed. Any other failure ends the
  script. The statements executed before it stay committed, and the statements
  after it never run.
- **The lifecycle**. The fields `initScripts`, `destroyScript`, `dataSource`,
  `initialize` and `initialized` are changed by setters and by the two hooks.
  `afterPropertiesSet` requires a data source and a non-null init-script array.
  It does its work only when `initialize` is set and the object is not yet
  initialized. It first runs the destroy script and ignores any failure. It then
  runs the init scripts in array order, and `initialized` becomes true only when
  all of them complete. `destroy` clears `initialized` only when a destroy
  script is set and completes. It never throws.

The database is an oracle (`Scripts.DataSource`). It answers each statement with
`Ok`, `DataAccessError` or `OtherError`, and its answer may depend on every
statement sent before. The object keeps a log of the statements it sent, with
the answers (`Scripts.Attempt`). The order of statements and "earlier statements
stay committed" are stated on this log.

Modules:

- `Wrappers`: `Option` (a Java null is `None`) and `Outcome` (returns or throws).
- `Text`: the library string operations used by the source. These are
  `String.trim`, `StringUtils.hasText`/`Character.isWhitespace`, `startsWith`
  and `toUpperCase`.
- `Delimited`: `StringUtils.delimitedListToStringArray` with a one-character
  delimiter. An empty text gives no pieces. Any other text gives one more piece
  than it has delimiters.
- `Scripts`: resources, the oracle, comment stripping, statement extraction,
  statement execution (`RunStatements`) and one script run (`RunScript`).
- `Lifecycle`: `afterPropertiesSet` and `destroy` as functions of the
  configuration and the state, with the lemmas about them.
- `Initializer`: the class `DataSourceInitializer`. Its fields and methods
  mirror the Java class. Each method is proved equal to the corresponding
  function of `Scripts` or `Lifecycle`. The loop of `doExecuteScript` is a
  method of its own (`ExecuteStatements`), called by `ExecuteScript` after the
  resource checks.

Behaviour worth noting:

- `destroy` leaves `initialized` true when the destroy script is missing or
  fails (`DataSourceInitializer.java:65-67`). Teardown does not clear the flag
  unconditionally.
- Comments are recognised only at the very start of a line
  (`DataSourceInitializer.java:144`). In the line `CREATE TABLE t(id INT); -- note`
  the text `-- note` is not removed. It becomes the start of the next
  statement, which goes to the database as `-- note`, a line feed, then the
  next line's text. `Scripts.InlineCommentReachesStatement` proves this on a
  small script.
- A null init-script array makes `afterPropertiesSet` throw (line 83 passes it
  to `Arrays.asList`). This happens whatever the flags say, so the null check at
  line 91 is never reached.
- Without a data source, `doExecuteScript` fails for an existing script, because
  the `JdbcTemplate` constructor (line 105) rejects a null data source. `destroy`
  reaches this path after `setDataSource(null)` and swallows the failure.

## Model

| member | source | states |
|---|---|---|
| `Scripts.StripComments` | spring-batch-infrastructure-tests/src/test/java/test/jdbc/datasource/DataSourceInitializer.java:141-149 | the text built is the non-comment lines in order, each followed by a line feed; its length is their total length plus their number |
| `Scripts.KeptLinesSpec` | spring-batch-infrastructure-tests/src/test/java/test/jdbc/datasource/DataSourceInitializer.java:143-146 | a line is kept exactly when it is in the script and does not start with `//` or `--` |
| `Scripts.IsComment` | spring-batch-infrastructure-tests/src/test/java/test/jdbc/datasource/DataSourceInitializer.java:144 | a line is a comment exactly when its raw, untrimmed text starts with `//` or `--` |
| `Scripts.KeptLines` | spring-batch-infrastructure-tests/src/test/java/test/jdbc/datasource/DataSourceInitializer.java:143-146 | the lines that are not comments, in their order; never more lines than the script has |
| `Scripts.JoinLines` | spring-batch-infrastructure-tests/src/test/java/test/jdbc/datasource/DataSourceInitializer.java:145 | joining lines, each followed by a line feed, gives their total length plus one character per line |
| `Scripts.IndentedCommentIsKept` | spring-batch-infrastructure-tests/src/test/java/test/jdbc/datasource/DataSourceInitializer.java:144 | the comment test is on the raw line: a line starting with whitespace is kept whole, even if a comment follows |
| `Scripts.InlineCommentReachesStatement` | spring-batch-infrastructure-tests/src/test/java/test/jdbc/datasource/DataSourceInitializer.java:108-123 | for the script `a; -- x` / `b;` the statements are exactly `a` and `-- x` + line feed + `b`: an inline comment reaches the database |
| `Delimited.Split` | spring-batch-infrastructure-tests/src/test/java/test/jdbc/datasource/DataSourceInitializer.java:108 | splitting on `;` gives no piece for an empty text, else one more piece than delimiters; no piece contains `;`; re-joining gives the text back |
| `Delimited.Fields` | spring-batch-infrastructure-tests/src/test/java/test/jdbc/datasource/DataSourceInitializer.java:108 | the pieces between delimiters number one more than the delimiters and none contains the delimiter |
| `Delimited.JoinFields` | spring-batch-infrastructure-tests/src/test/java/test/jdbc/datasource/DataSourceInitializer.java:108 | splitting then joining with the delimiter gives the original text |
| `Delimited.FieldsJoin` | spring-batch-infrastructure-tests/src/test/java/test/jdbc/datasource/DataSourceInitializer.java:108 | joining delimiter-free pieces then splitting gives the pieces back |
| `Text.Trim` | spring-batch-infrastructure-tests/src/test/java/test/jdbc/datasource/DataSourceInitializer.java:116 | the trimmed statement neither starts nor ends with a character at or below U+0020, and is empty exactly when every character is |
| `Text.TrimStart` | spring-batch-infrastructure-tests/src/test/java/test/jdbc/datasource/DataSourceInitializer.java:116 | trimming the front removes only characters at or below U+0020 and leaves a suffix that starts above it |
| `Text.TrimEnd` | spring-batch-infrastructure-tests/src/test/java/test/jdbc/datasource/DataSourceInitializer.java:116 | trimming the back removes only characters at or below U+0020 and leaves a prefix that ends above it |
| `Text.TrimmedIffFixed` | spring-batch-infrastructure-tests/src/test/java/test/jdbc/datasource/DataSourceInitializer.java:116 | text is left unchanged by trimming exactly when it neither starts nor ends with a character at or below U+0020 |
| `Text.TrimIdempotent` | spring-batch-infrastructure-tests/src/test/java/test/jdbc/datasource/DataSourceInitializer.java:116 | the result of trimming is trimmed: trimming it again changes nothing |
| `Text.TrimKeepsCharacters` | spring-batch-infrastructure-tests/src/test/java/test/jdbc/datasource/DataSourceInitializer.java:116 | trimming adds no character: every character of the statement occurs in its piece |
| `Text.DropIgnoresCase` | spring-batch-infrastructure-tests/src/test/java/test/jdbc/datasource/DataSourceInitializer.java:128 | the upper-cased text starts with `DROP` exactly when its first four characters are d, r, o, p in either case |
| `Text.IsWhitespace` | spring-batch-infrastructure-tests/src/test/java/test/jdbc/datasource/DataSourceInitializer.java:123 | the characters `Character.isWhitespace` accepts (Java 9 and later) |
| `Text.HasText` | spring-batch-infrastructure-tests/src/test/java/test/jdbc/datasource/DataSourceInitializer.java:123 | a statement has text exactly when some character of it is not whitespace |
| `Text.UpperCase` | spring-batch-infrastructure-tests/src/test/java/test/jdbc/datasource/DataSourceInitializer.java:128 | upper-casing keeps the length and maps each character on its own, ASCII letters to their capitals |
| `Text.IsDrop` | spring-batch-infrastructure-tests/src/test/java/test/jdbc/datasource/DataSourceInitializer.java:128 | a statement is a DROP exactly when its upper-cased text starts with `DROP` |
| `Scripts.CleanHead` | spring-batch-infrastructure-tests/src/test/java/test/jdbc/datasource/DataSourceInitializer.java:116-123 | the statement a piece without `c` yields, when it has text, is trimmed and has no `c` |
| `Scripts.StatementsWellFormed` | spring-batch-infrastructure-tests/src/test/java/test/jdbc/datasource/DataSourceInitializer.java:115-123 | every statement extracted from pieces free of `c` has text, is already trimmed, and contains no `c` |
| `Scripts.ScriptStatementsWellFormed` | spring-batch-infrastructure-tests/src/test/java/test/jdbc/datasource/DataSourceInitializer.java:108-123 | every statement of a script is non-blank, trimmed and free of `;` |
| `Scripts.StatementsAppend` | spring-batch-infrastructure-tests/src/test/java/test/jdbc/datasource/DataSourceInitializer.java:115-116 | the statements of consecutive pieces are consecutive: statements keep the textual order and blank pieces contribute none |
| `Scripts.Statements` | spring-batch-infrastructure-tests/src/test/java/test/jdbc/datasource/DataSourceInitializer.java:115-123 | the statements of the pieces: each piece trimmed, those without text skipped, in order; never more statements than pieces |
| `Scripts.ScriptStatements` | spring-batch-infrastructure-tests/src/test/java/test/jdbc/datasource/DataSourceInitializer.java:108-123 | the statements of a script: its comments stripped, the text split on `;`, then trimmed and blank pieces skipped |
| `Scripts.RunStatements` | spring-batch-infrastructure-tests/src/test/java/test/jdbc/datasource/DataSourceInitializer.java:115-136 | executing statements only appends to the log, at most one attempt per statement |
| `Scripts.Tolerated` | spring-batch-infrastructure-tests/src/test/java/test/jdbc/datasource/DataSourceInitializer.java:124-130 | an attempt does not end the script exactly when the statement completed, or failed with a data-access error and is a DROP |
| `Scripts.RunStatementsAppend` | spring-batch-infrastructure-tests/src/test/java/test/jdbc/datasource/DataSourceInitializer.java:115-136 | executing two lists of statements in a row is executing the second only if the first completed |
| `Scripts.RunStatementsSpec` | spring-batch-infrastructure-tests/src/test/java/test/jdbc/datasource/DataSourceInitializer.java:115-136 | the statements attempted are a prefix of the list, in order, each sent with the log as it stood; the run completes exactly when all were attempted and each completed or was a DROP with a data-access failure; otherwise it stops right after the first other failure and reports it |
| `Scripts.StopsAtFailure` | spring-batch-infrastructure-tests/src/test/java/test/jdbc/datasource/DataSourceInitializer.java:127-130 | once a statement's failure propagates, no later statement is executed |
| `Scripts.FailureEndsRun` | spring-batch-infrastructure-tests/src/test/java/test/jdbc/datasource/DataSourceInitializer.java:115-136 | a failure within the first pieces is the result of the whole script |
| `Scripts.FragmentStep` | spring-batch-infrastructure-tests/src/test/java/test/jdbc/datasource/DataSourceInitializer.java:116-132 | one more piece adds nothing when the run already failed or the piece is blank, else one attempt of its trimmed text, failing unless tolerated |
| `Scripts.RunScript` | spring-batch-infrastructure-tests/src/test/java/test/jdbc/datasource/DataSourceInitializer.java:102-114 | a null or non-existent script executes nothing and completes; a script run only appends to the log |
| `Initializer.DataSourceInitializer.ExecuteScript` | spring-batch-infrastructure-tests/src/test/java/test/jdbc/datasource/DataSourceInitializer.java:102-114 | the outcome and new log are those of `RunScript` on the current data source and log |
| `Initializer.DataSourceInitializer.ExecuteStatements` | spring-batch-infrastructure-tests/src/test/java/test/jdbc/datasource/DataSourceInitializer.java:115-137 | the statement loop's outcome and new log are those of `RunStatements` on the statements of the pieces |
| `Lifecycle.RunEach` | spring-batch-infrastructure-tests/src/test/java/test/jdbc/datasource/DataSourceInitializer.java:92-96 | scripts run in array order, each on the log its predecessors left, stopping at the first that fails |
| `Lifecycle.RunEachGrows` | spring-batch-infrastructure-tests/src/test/java/test/jdbc/datasource/DataSourceInitializer.java:92-96 | when each script run only appends to the log, running scripts one after another does too |
| `Lifecycle.RunEachPasses` | spring-batch-infrastructure-tests/src/test/java/test/jdbc/datasource/DataSourceInitializer.java:92-96 | scripts run one after another, stopping at the first failure, complete exactly when each completes on the log its predecessors left |
| `Lifecycle.RunEachStopsAtFailure` | spring-batch-infrastructure-tests/src/test/java/test/jdbc/datasource/DataSourceInitializer.java:92-96 | once script k fails, the scripts after it never run and the result is that of the first k+1 |
| `Lifecycle.RunScripts` | spring-batch-infrastructure-tests/src/test/java/test/jdbc/datasource/DataSourceInitializer.java:91-97 | running the init scripts only appends to the log |
| `Lifecycle.RunScriptsPasses` | spring-batch-infrastructure-tests/src/test/java/test/jdbc/datasource/DataSourceInitializer.java:92-96 | the init scripts complete exactly when each script, run after its predecessors, completes |
| `Lifecycle.RunScriptsStopsAtFailure` | spring-batch-infrastructure-tests/src/test/java/test/jdbc/datasource/DataSourceInitializer.java:92-96 | once an init script fails, the later init scripts never run |
| `Lifecycle.InitPath` | spring-batch-infrastructure-tests/src/test/java/test/jdbc/datasource/DataSourceInitializer.java:85-98 | on the init path the outcome is that of the init scripts, the destroy script's being ignored; the statements sent are exactly the destroy script's, then the init scripts' up to the first failure; the object ends initialized exactly when the call returns normally |
| `Lifecycle.AfterPropertiesSet` | spring-batch-infrastructure-tests/src/test/java/test/jdbc/datasource/DataSourceInitializer.java:81-100 | fails without a data source, then on a null init-script array, changing nothing; otherwise, when initialized or not asked to initialize, it returns normally, sends no statement and changes nothing; afterwards the object is initialized exactly when it was, or when it was asked to initialize and the call returned normally; the log only grows |
| `Lifecycle.AfterPropertiesSetIdempotent` | spring-batch-infrastructure-tests/src/test/java/test/jdbc/datasource/DataSourceInitializer.java:84 | a second call after one that returned normally executes nothing and changes nothing |
| `Lifecycle.InitializedIffAllInitScriptsComplete` | spring-batch-infrastructure-tests/src/test/java/test/jdbc/datasource/DataSourceInitializer.java:85-98 | on the init path the destroy script's attempts come first, its failure is ignored, and the object becomes initialized exactly when every init script completes |
| `Lifecycle.InitStopsAtFirstFailingScript` | spring-batch-infrastructure-tests/src/test/java/test/jdbc/datasource/DataSourceInitializer.java:92-98 | when the init scripts up to k fail, the call reports that prefix's failure with exactly its log, scripts after k never run, and the object stays uninitialized |
| `Lifecycle.Destroy` | spring-batch-infrastructure-tests/src/test/java/test/jdbc/datasource/DataSourceInitializer.java:60-78 | nothing happens unless initialized and a destroy script is set; then the statements sent are exactly those of one run of the destroy script, and the flag is cleared exactly when it completes |
| `Lifecycle.RestartReinitializes` | spring-batch-infrastructure-tests/src/test/java/test/jdbc/datasource/DataSourceInitializer.java:60-99 | after an initialization and a completed destroy, the next `afterPropertiesSet` takes the init path again |
| `Initializer.DataSourceInitializer.AfterPropertiesSet` | spring-batch-infrastructure-tests/src/test/java/test/jdbc/datasource/DataSourceInitializer.java:81-100 | the outcome, flag and log after the call are those of `Lifecycle.AfterPropertiesSet` on the configuration and the prior state |
| `Initializer.DataSourceInitializer.Destroy` | spring-batch-infrastructure-tests/src/test/java/test/jdbc/datasource/DataSourceInitializer.java:60-78 | the flag and log after the call are those of `Lifecycle.Destroy` on the configuration and the prior state |
| `Initializer.DataSourceInitializer.constructor` | spring-batch-infrastructure-tests/src/test/java/test/jdbc/datasource/DataSourceInitializer.java:43-53 | a new object has no scripts and no data source, `initialize` and `initialized` false, and nothing executed |
| `Initializer.DataSourceInitializer.SetInitialize` | spring-batch-infrastructure-tests/src/test/java/test/jdbc/datasource/DataSourceInitializer.java:55-57 | sets `initialize` and changes nothing else |
| `Initializer.DataSourceInitializer.SetInitScripts` | spring-batch-infrastructure-tests/src/test/java/test/jdbc/datasource/DataSourceInitializer.java:155-157 | sets `initScripts` and changes nothing else |
| `Initializer.DataSourceInitializer.SetDestroyScript` | spring-batch-infrastructure-tests/src/test/java/test/jdbc/datasource/DataSourceInitializer.java:159-161 | sets `destroyScript` and changes nothing else |
| `Initializer.DataSourceInitializer.SetDataSource` | spring-batch-infrastructure-tests/src/test/java/test/jdbc/datasource/DataSourceInitializer.java:163-165 | sets `dataSource` and changes nothing else |

## Left out

- JDBC, `JdbcTemplate`, `DataSourceTransactionManager` and `TransactionTemplate` are foreign library calls. They are replaced by the statement oracle and the attempt log. Failures to begin or commit a transaction are not modelled; only the statement's own outcome is.
- Reading the resource (`getInputStream`, `IOUtils.readLines`, UTF-8 decoding) is I/O. A script is modelled as its already-read lines. An `IOException` is one abstract outcome, `ScriptLoadFailed`.
- `StringUtils.delimitedListToStringArray` is modelled by its observable result for a one-character delimiter (`Delimited.Split`), not by its code.
- `Text.UpperCase` upper-cases ASCII letters only. Full Unicode case mapping is not modelled. Only the test "starts with DROP" depends on it.
- Logging has no effect on state and is left out. The same holds for the exception messages and the `Exception` cause chains.
- `getObjectType` returns a constant class object and is left out.
- Exceptions other than `Exception` subclasses (Java `Error`s) and statements that never return (a hung connection) are not modelled.
- The bean container that calls the hooks is left out. `AfterPropertiesSet` and `Destroy` are explicit method calls.
- The resource and data-source objects are values, not shared references. Aliasing between two initializers that share a data source is not modelled. Each object's log records only its own statements.
- Java strings are sequences of UTF-16 code units; the model's strings are sequences of Unicode scalar values. Surrogate pairs are not modelled, and no statement text depends on them.
