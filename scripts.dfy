/**
 * Running one SQL script against a data source: the comment stripping of
 * `stripComments`, the split on ';', and the statement loop of
 * `doExecuteScript`, one transaction per statement, that tolerates a failing
 * DROP and stops at any other failure.
 */
module Scripts {
  import opened Wrappers
  import opened Text
  import opened Delimited

  /** What reading a script resource gives: its lines (already decoded), or a
      read failure. */
  datatype Contents = Lines(lines: seq<string>) | Unreadable

  /** A script resource: whether it exists, and what reading it gives. */
  datatype Resource = Resource(present: bool, contents: Contents)

  /** How the database answers one statement: it completes, or it throws a
      data-access exception, or it throws some other runtime exception. */
  datatype StatementResult = Ok | DataAccessError | OtherError

  /** One statement sent to the database, in its own transaction, and its answer. */
  datatype Attempt = Attempt(statement: string, result: StatementResult)

  /** The database behind the data source, as an oracle: its answer to a
      statement may depend on every statement sent before it. */
  datatype DataSource = DataSource(execute: (seq<Attempt>, string) -> StatementResult)

  /** What the initializer throws. */
  datatype Error =
    | MissingDataSource     // no data source: `Assert.notNull` or the `JdbcTemplate` constructor rejects it
    | NullInitScripts       // `Arrays.asList` of a null init-script array
    | ScriptLoadFailed      // the script exists but cannot be read
    | StatementFailed(statement: string, result: StatementResult)

  /** How a run ended, and the attempts log afterwards. */
  datatype Run = Run(outcome: Outcome<Error>, log: seq<Attempt>)

  /** The statement delimiter. */
  const Delimiter: char := ';'

  // ---------------------------------------------------------------------------
  // Comment stripping

  /** A comment line starts, as it stands and untrimmed, with `//` or `--`. */
  predicate IsComment(line: string) {
    StartsWith(line, "//") || StartsWith(line, "--")
  }

  /** The lines that are not comment lines, in their original order. */
  function KeptLines(lines: seq<string>): (kept: seq<string>)
    ensures |kept| <= |lines|
  {
    if lines == [] then []
    else (if IsComment(lines[0]) then [] else [lines[0]]) + KeptLines(lines[1..])
  }

  /** The kept lines are exactly the lines of `lines` that are not comments. */
  lemma {:induction false} KeptLinesSpec(lines: seq<string>)
    ensures forall l :: l in KeptLines(lines) <==> l in lines && !IsComment(l)
  {
    if lines != [] {
      KeptLinesSpec(lines[1..]);
      assert lines == [lines[0]] + lines[1..];
    }
  }

  /** The sum of the lengths of some lines. */
  function TotalLength(lines: seq<string>): nat {
    if lines == [] then 0 else |lines[0]| + TotalLength(lines[1..])
  }

  /** The lines, each followed by a line feed. */
  function JoinLines(lines: seq<string>): (text: string)
    ensures |text| == TotalLength(lines) + |lines|
  {
    if lines == [] then "" else lines[0] + "\n" + JoinLines(lines[1..])
  }

  /** The text `stripComments` builds: every kept line followed by a line feed. */
  function Stripped(lines: seq<string>): string {
    JoinLines(KeptLines(lines))
  }

  lemma {:induction false} KeptLinesAppend(xs: seq<string>, ys: seq<string>)
    ensures KeptLines(xs + ys) == KeptLines(xs) + KeptLines(ys)
  {
    if xs != [] {
      assert (xs + ys)[1..] == xs[1..] + ys;
      KeptLinesAppend(xs[1..], ys);
    } else {
      assert xs + ys == ys;
    }
  }

  lemma {:induction false} JoinLinesAppend(xs: seq<string>, ys: seq<string>)
    ensures JoinLines(xs + ys) == JoinLines(xs) + JoinLines(ys)
  {
    if xs != [] {
      assert (xs + ys)[1..] == xs[1..] + ys;
      JoinLinesAppend(xs[1..], ys);
    } else {
      assert xs + ys == ys;
    }
  }

  /** What one more line adds to the stripped text. */
  lemma StripStep(lines: seq<string>, i: nat)
    requires i < |lines|
    ensures JoinLines(KeptLines(lines[..i + 1])) ==
      JoinLines(KeptLines(lines[..i])) + (if IsComment(lines[i]) then "" else lines[i] + "\n")
  {
    assert lines[..i + 1] == lines[..i] + [lines[i]];
    KeptLinesAppend(lines[..i], [lines[i]]);
    JoinLinesAppend(KeptLines(lines[..i]), KeptLines([lines[i]]));
    assert [lines[i]][1..] == [];
    if !IsComment(lines[i]) {
      assert KeptLines([lines[i]]) == [lines[i]];
      assert JoinLines([lines[i]]) == lines[i] + "\n";
    }
  }

  /** `stripComments`: appends every line that is not a comment line, and a
      line feed after it, to a buffer. */
  method StripComments(lines: seq<string>) returns (text: string)
    ensures text == JoinLines(KeptLines(lines))
    ensures |text| == TotalLength(KeptLines(lines)) + |KeptLines(lines)|
  {
    text := "";
    for i := 0 to |lines|
      invariant text == JoinLines(KeptLines(lines[..i]))
    {
      if !IsComment(lines[i]) {
        text := text + lines[i] + "\n";
      }
      StripStep(lines, i);
    }
    assert lines[..|lines|] == lines;
  }

  /** The comment test looks at the raw line: an indented comment is kept. */
  lemma IndentedCommentIsKept(line: string)
    requires |line| > 0 && IsWhitespace(line[0])
    ensures KeptLines([line]) == [line]
    ensures Stripped([line]) == line + "\n"
  {
    assert !IsComment(line) by {
      if |line| >= 2 {
        assert line[..2][0] == line[0];
      }
    }
    assert [line][1..] == [];
  }

  // ---------------------------------------------------------------------------
  // Statements

  /** The statements of some fragments: each fragment trimmed, the blank ones
      left out, in order. */
  function Statements(fragments: seq<string>): (stmts: seq<string>)
    ensures |stmts| <= |fragments|
  {
    if fragments == [] then []
    else
      var s := Trim(fragments[0]);
      (if HasText(s) then [s] else []) + Statements(fragments[1..])
  }

  /** A statement as sent to the database: it has text, is trimmed (so
      `Text.TrimmedIffFixed` makes it its own trim) and does not contain `c`. */
  predicate CleanStatement(s: string, c: char) {
    HasText(s) && IsTrimmed(s) && c !in s
  }

  /** The statement of one fragment, if it has one, is clean. */
  lemma CleanHead(fragment: string, c: char)
    requires c !in fragment
    ensures HasText(Trim(fragment)) ==> CleanStatement(Trim(fragment), c)
  {
    if c in Trim(fragment) {
      TrimKeepsCharacters(fragment, c);
    }
  }

  /** Every statement is the trimmed text of a fragment: it has text, is
      trimmed, and contains no character that no fragment contains. */
  lemma {:induction false} StatementsWellFormed(fragments: seq<string>, c: char)
    requires forall f :: f in fragments ==> c !in f
    ensures forall s :: s in Statements(fragments) ==> CleanStatement(s, c)
  {
    if fragments != [] {
      var s := Trim(fragments[0]);
      var rest := Statements(fragments[1..]);
      assert fragments[0] in fragments;
      CleanHead(fragments[0], c);
      assert forall f :: f in fragments[1..] ==> f in fragments;
      StatementsWellFormed(fragments[1..], c);
      if HasText(s) {
        assert Statements(fragments) == [s] + rest;
      } else {
        assert Statements(fragments) == rest;
      }
    }
  }

  /** The statements of consecutive pieces of text are consecutive: statements
      keep the textual order of the fragments. */
  lemma {:induction false} StatementsAppend(xs: seq<string>, ys: seq<string>)
    ensures Statements(xs + ys) == Statements(xs) + Statements(ys)
  {
    AppendTail(xs, ys);
    if xs != [] {
      var s := Trim(xs[0]);
      var head := if HasText(s) then [s] else [];
      assert Statements(xs + ys) == head + Statements(xs[1..] + ys);
      assert Statements(xs) == head + Statements(xs[1..]);
      StatementsAppend(xs[1..], ys);
      AppendAssoc(head, Statements(xs[1..]), Statements(ys));
    }
  }

  lemma AppendAssoc<T>(xs: seq<T>, ys: seq<T>, zs: seq<T>)
    ensures xs + (ys + zs) == (xs + ys) + zs
  {
  }

  /** The statements `doExecuteScript` finds in a script. */
  function ScriptStatements(lines: seq<string>): seq<string> {
    Statements(Split(Stripped(lines), Delimiter))
  }

  /** Every statement of a script is non-blank, already trimmed, and free of
      the delimiter. */
  lemma ScriptStatementsWellFormed(lines: seq<string>)
    ensures forall s :: s in ScriptStatements(lines) ==>
      HasText(s) && IsTrimmed(s) && Delimiter !in s
  {
    var fragments := Split(Stripped(lines), Delimiter);
    forall f | f in fragments
      ensures Delimiter !in f
    {
      var k :| 0 <= k < |fragments| && fragments[k] == f;
    }
    StatementsWellFormed(fragments, Delimiter);
  }

  // ---------------------------------------------------------------------------
  // Execution

  /** A failure `doExecuteScript` swallows: a data-access failure of a
      statement whose upper-cased text starts with DROP. A completed
      statement is tolerated too. */
  predicate Tolerated(a: Attempt) {
    a.result == Ok || (a.result == DataAccessError && IsDrop(a.statement))
  }

  /** Reference definition: execute the statements in order until one fails
      in a way that is not tolerated. */
  function RunStatements(db: DataSource, log: seq<Attempt>, stmts: seq<string>): (r: Run)
    ensures log <= r.log && |r.log| <= |log| + |stmts|
    decreases |stmts|
  {
    if stmts == [] then Run(Pass, log)
    else
      var a := Attempt(stmts[0], db.execute(log, stmts[0]));
      if Tolerated(a) then RunStatements(db, log + [a], stmts[1..])
      else Run(Fail(StatementFailed(a.statement, a.result)), log + [a])
  }

  lemma {:induction false} RunStatementsAppend(db: DataSource, log: seq<Attempt>, xs: seq<string>, ys: seq<string>)
    ensures RunStatements(db, log, xs + ys) ==
      var before := RunStatements(db, log, xs);
      if before.outcome.Fail? then before else RunStatements(db, before.log, ys)
    decreases |xs|
  {
    AppendTail(xs, ys);
    if xs != [] {
      var a := Attempt(xs[0], db.execute(log, xs[0]));
      if Tolerated(a) {
        RunStatementsAppend(db, log + [a], xs[1..], ys);
      }
    }
  }

  /** Dropping the head of a concatenation drops the head of its first part. */
  lemma AppendTail<T>(xs: seq<T>, ys: seq<T>)
    ensures xs == [] ==> xs + ys == ys
    ensures xs != [] ==> (xs + ys)[0] == xs[0] && (xs + ys)[1..] == xs[1..] + ys
  {
  }

  /** A sequence is its prefix followed by its suffix. */
  lemma PrefixSuffix<T>(s: seq<T>, i: nat)
    requires i <= |s|
    ensures s == s[..i] + s[i..]
    ensures s[..|s|] == s
  {
  }

  /** Once a run fails, statements after it are never executed. */
  lemma StopsAtFailure(db: DataSource, log: seq<Attempt>, xs: seq<string>, ys: seq<string>)
    requires RunStatements(db, log, xs).outcome.Fail?
    ensures RunStatements(db, log, xs + ys) == RunStatements(db, log, xs)
  {
    RunStatementsAppend(db, log, xs, ys);
  }

  /** A failure after the fragments up to `i` is the failure of the whole run. */
  lemma FailureEndsRun(db: DataSource, log: seq<Attempt>, fragments: seq<string>, i: nat)
    requires i < |fragments|
    requires RunStatements(db, log, Statements(fragments[..i + 1])).outcome.Fail?
    ensures RunStatements(db, log, Statements(fragments)) == RunStatements(db, log, Statements(fragments[..i + 1]))
  {
    PrefixSuffix(fragments, i + 1);
    StatementsAppend(fragments[..i + 1], fragments[i + 1..]);
    StopsAtFailure(db, log, Statements(fragments[..i + 1]), Statements(fragments[i + 1..]));
  }

  /** What one more fragment adds to a run: nothing when the run already
      failed or the fragment is blank; otherwise one attempt of its trimmed
      text, and a failure unless that attempt is tolerated. */
  lemma FragmentStep(db: DataSource, log: seq<Attempt>, fragments: seq<string>, i: nat)
    requires i < |fragments|
    ensures var before := RunStatements(db, log, Statements(fragments[..i]));
      var stmt := Trim(fragments[i]);
      var a := Attempt(stmt, db.execute(before.log, stmt));
      RunStatements(db, log, Statements(fragments[..i + 1])) ==
        if before.outcome.Fail? || !HasText(stmt) then before
        else Run(if Tolerated(a) then Pass else Fail(StatementFailed(stmt, a.result)), before.log + [a])
  {
    var last := fragments[i];
    assert fragments[..i + 1] == fragments[..i] + [last];
    StatementsAppend(fragments[..i], [last]);
    RunStatementsAppend(db, log, Statements(fragments[..i]), Statements([last]));
    assert [last][1..] == [];
    if HasText(Trim(last)) {
      assert Statements([last]) == [Trim(last)];
      assert [Trim(last)][1..] == [];
    } else {
      assert Statements([last]) == [];
    }
  }

  /** What executing statements in order does: the log grows by one attempt
      per statement executed; the statements executed are a prefix of the
      list, each sent with the log as it stood; the run passes exactly when
      every statement was executed and tolerated; otherwise it stops right
      after the first statement whose failure is not tolerated and reports it. */
  lemma {:induction false} RunStatementsSpec(db: DataSource, log: seq<Attempt>, stmts: seq<string>)
    ensures var r := RunStatements(db, log, stmts);
      && log <= r.log && |r.log| <= |log| + |stmts|
      && (forall k :: |log| <= k < |r.log| ==> r.log[k].statement == stmts[k - |log|])
      && (forall k :: |log| <= k < |r.log| ==> r.log[k].result == db.execute(r.log[..k], r.log[k].statement))
      && (r.outcome.Pass? <==>
            |r.log| == |log| + |stmts| && forall k :: |log| <= k < |r.log| ==> Tolerated(r.log[k]))
      && (r.outcome.Fail? ==>
            && |log| < |r.log|
            && !Tolerated(r.log[|r.log| - 1])
            && r.outcome.error == StatementFailed(r.log[|r.log| - 1].statement, r.log[|r.log| - 1].result)
            && forall k :: |log| <= k < |r.log| - 1 ==> Tolerated(r.log[k]))
    decreases |stmts|
  {
    if stmts != [] {
      var a := Attempt(stmts[0], db.execute(log, stmts[0]));
      var log' := log + [a];
      if Tolerated(a) {
        RunStatementsSpec(db, log', stmts[1..]);
        var r := RunStatements(db, log', stmts[1..]);
        assert r.log[|log|] == a;
        assert r.log[..|log|] == log;
        forall k | |log| < k < |r.log|
          ensures r.log[k].statement == stmts[k - |log|]
        {
          assert stmts[1..][k - |log'|] == stmts[k - |log|];
        }
      }
    }
  }

  /** `doExecuteScript`: nothing for a missing or non-existent resource; a
      failure without a data source or when the script cannot be read; else
      the statement loop over the stripped script split on ';'. */
  function RunScript(ds: Option<DataSource>, log: seq<Attempt>, script: Option<Resource>): (r: Run)
    ensures log <= r.log
    ensures script.None? || !script.value.present ==> r == Run(Pass, log)
  {
    if script.None? || !script.value.present then Run(Pass, log)
    else if ds.None? then Run(Fail(MissingDataSource), log)
    else match script.value.contents
      case Unreadable => Run(Fail(ScriptLoadFailed), log)
      case Lines(lines) => RunStatements(ds.value, log, ScriptStatements(lines))
  }

  /** Comments are only recognised at the start of a line: in the script
      `a; -- x` / `b;` the comment stays in the text, and the second
      statement sent to the database is `-- x`, a line feed, then `b`. */
  lemma InlineCommentReachesStatement()
    ensures ScriptStatements(["a; -- x", "b;"]) == ["a", "-- x\nb"]
  {
    ExampleStripped();
    ExampleSplit();
    ExampleStatements("a", " -- x\nb", "\n");
  }

  lemma ExampleStripped()
    ensures Stripped(["a; -- x", "b;"]) == "a; -- x\nb;\n"
  {
    var lines := ["a; -- x", "b;"];
    assert !IsComment(lines[0]) by { assert lines[0][..2] == "a;"; }
    assert !IsComment(lines[1]) by { assert lines[1][..2] == "b;"; }
    assert lines[1..] == ["b;"];
    assert ["b;"][1..] == [];
    assert KeptLines(lines) == lines;
    assert JoinLines(["b;"]) == "b;\n";
  }

  lemma ExampleSplit()
    ensures Split("a; -- x\nb;\n", Delimiter) == ["a", " -- x\nb", "\n"]
  {
    var pieces := ["a", " -- x\nb", "\n"];
    assert pieces[1..] == [" -- x\nb", "\n"];
    assert pieces[1..][1..] == ["\n"];
    assert Join(pieces[1..][1..], ';') == "\n";
    assert Join(pieces[1..], ';') == " -- x\nb;\n";
    assert Join(pieces, ';') == "a; -- x\nb;\n";
    FieldsJoin(pieces, ';');
  }

  lemma ExampleTrimA()
    ensures Trim("a") == "a" && HasText("a")
  {
    assert TrimStart("a") == "a";
    assert TrimEnd("a") == "a";
    assert !IsWhitespace("a"[0]);
  }

  lemma ExampleTrimB()
    ensures Trim(" -- x\nb") == "-- x\nb" && HasText("-- x\nb")
  {
    var s := " -- x\nb";
    var t := "-- x\nb";
    assert s[1..] == t;
    assert TrimStart(t) == t;
    assert TrimStart(s) == t;
    assert TrimEnd(t) == t;
    assert !IsWhitespace(t[0]);
  }

  lemma ExampleTrimC()
    ensures Trim("\n") == "" && !HasText("")
  {
    assert "\n"[1..] == "";
  }

  lemma StatementsOfOne(fragment: string)
    ensures Statements([fragment]) == if HasText(Trim(fragment)) then [Trim(fragment)] else []
  {
    assert [fragment][1..] == [];
  }

  /** The statements of the example's three pieces. The pieces are
      parameters equal to literals so that the solver never compares the
      nested literal sequences element by element. */
  lemma ExampleStatements(a: string, b: string, c: string)
    requires a == "a" && b == " -- x\nb" && c == "\n"
    ensures Statements([a, b, c]) == ["a", "-- x\nb"]
  {
    StatementsAppend([a], [b, c]);
    StatementsAppend([b], [c]);
    Cons3(a, b, c);
    ExampleTrimA();
    ExampleTrimB();
    ExampleTrimC();
    StatementsOfOne(a);
    StatementsOfOne(b);
    StatementsOfOne(c);
    TwoThenNone(Statements([a]), Statements([b]), Statements([c]), "a", "-- x\nb");
  }

  lemma Cons3<T>(a: T, b: T, c: T)
    ensures [a] + [b, c] == [a, b, c] && [b] + [c] == [b, c]
  {
  }

  lemma TwoThenNone<T>(xs: seq<T>, ys: seq<T>, zs: seq<T>, x: T, y: T)
    requires xs == [x] && ys == [y] && zs == []
    ensures xs + (ys + zs) == [x, y]
  {
  }
}
