/**
 * The initializer object: its properties, set one by one, and the two
 * lifecycle hooks, which run the scripts statement by statement and update
 * the `initialized` flag in place.
 */
module Initializer {
  import opened Wrappers
  import opened Text
  import opened Delimited
  import opened Scripts
  import opened Lifecycle

  class DataSourceInitializer {
    var initScripts: Option<seq<Option<Resource>>>
    var destroyScript: Option<Resource>
    var dataSource: Option<DataSource>
    var initialize: bool
    var initialized: bool
    /** The statements sent to the database so far, with its answers. */
    var log: seq<Attempt>

    /** The configured properties. */
    function Configuration(): Config
      reads this
    {
      Config(initScripts, destroyScript, dataSource, initialize)
    }

    /** The state the lifecycle hooks change. */
    function Current(): State
      reads this
    {
      State(initialized, log)
    }

    /** A fresh initializer: nothing configured, not asked to initialize, not
        initialized, nothing executed. */
    constructor ()
      ensures initScripts.None? && destroyScript.None? && dataSource.None?
      ensures !initialize && !initialized && log == []
    {
      initScripts := None;
      destroyScript := None;
      dataSource := None;
      initialize := false;
      initialized := false;
      log := [];
    }

    method SetInitialize(initialize: bool)
      modifies this`initialize
      ensures this.initialize == initialize
    {
      this.initialize := initialize;
    }

    method SetInitScripts(initScripts: Option<seq<Option<Resource>>>)
      modifies this`initScripts
      ensures this.initScripts == initScripts
    {
      this.initScripts := initScripts;
    }

    method SetDestroyScript(destroyScript: Option<Resource>)
      modifies this`destroyScript
      ensures this.destroyScript == destroyScript
    {
      this.destroyScript := destroyScript;
    }

    method SetDataSource(dataSource: Option<DataSource>)
      modifies this`dataSource
      ensures this.dataSource == dataSource
    {
      this.dataSource := dataSource;
    }

    /** `destroy`: when initialized and a destroy script is set, runs it and
        clears the flag if it completes; swallows every failure. */
    method Destroy()
      modifies this`initialized, this`log
      ensures Current() == Lifecycle.Destroy(Configuration(), old(Current()))
    {
      if !initialized {
        return;
      }
      if destroyScript.Some? {
        var outcome := ExecuteScript(destroyScript);
        if outcome.Pass? {
          initialized := false;
        }
      }
    }

    /** `afterPropertiesSet`: checks the data source and the init-script
        array, then, when asked to and not yet initialized, runs the destroy
        script ignoring its failure and the init scripts in order, stopping at
        the first failure. */
    method AfterPropertiesSet() returns (outcome: Outcome<Error>)
      modifies this`initialized, this`log
      ensures Transition(outcome, Current()) == Lifecycle.AfterPropertiesSet(Configuration(), old(Current()))
    {
      if dataSource.None? {
        return Fail(MissingDataSource);
      }
      if initScripts.None? {
        return Fail(NullInitScripts);
      }
      if !initialized && initialize {
        var _ := ExecuteScript(destroyScript);
        ghost var cleared := log;
        var scripts := initScripts.value;
        for i := 0 to |scripts|
          invariant RunScripts(dataSource, cleared, scripts[..i]) == Run(Pass, log)
          invariant !initialized
        {
          TakeTake(scripts, i + 1, i);
          outcome := ExecuteScript(scripts[i]);
          assert RunScripts(dataSource, cleared, scripts[..i + 1]) == Run(outcome, log);
          if outcome.Fail? {
            RunScriptsStopsAtFailure(dataSource, cleared, scripts, i);
            return outcome;
          }
        }
        TakeTake(scripts, |scripts|, |scripts|);
        initialized := true;
      }
      return Pass;
    }

    /** `doExecuteScript`: runs the statements of one script, each in its own
        transaction, swallowing the data-access failure of a DROP statement
        and stopping at any other failure. */
    method ExecuteScript(script: Option<Resource>) returns (outcome: Outcome<Error>)
      modifies this`log
      ensures Run(outcome, log) == RunScript(dataSource, old(log), script)
    {
      if script.None? || !script.value.present {
        return Pass;
      }
      if dataSource.None? {
        return Fail(MissingDataSource);
      }
      var db := dataSource.value;
      if script.value.contents.Unreadable? {
        return Fail(ScriptLoadFailed);
      }
      var text := StripComments(script.value.contents.lines);
      outcome := ExecuteStatements(db, Split(text, Delimiter));
    }

    /** The loop of `doExecuteScript` over the pieces of the script: each
        trimmed piece that has text is executed in its own transaction; a
        failure stops the loop unless it is tolerated. */
    method ExecuteStatements(db: DataSource, fragments: seq<string>) returns (outcome: Outcome<Error>)
      modifies this`log
      ensures Run(outcome, log) == RunStatements(db, old(log), Statements(fragments))
    {
      for i := 0 to |fragments|
        invariant RunStatements(db, old(log), Statements(fragments[..i])) == Run(Pass, log)
      {
        FragmentStep(db, old(log), fragments, i);
        var stmt := Trim(fragments[i]);
        if HasText(stmt) {
          var result := db.execute(log, stmt);
          log := log + [Attempt(stmt, result)];
          if !Tolerated(Attempt(stmt, result)) {
            FailureEndsRun(db, old(log), fragments, i);
            return Fail(StatementFailed(stmt, result));
          }
        }
      }
      PrefixSuffix(fragments, |fragments|);
      return Pass;
    }
  }
}
