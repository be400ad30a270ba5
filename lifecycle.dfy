/**
 * The two lifecycle hooks of the initializer, `afterPropertiesSet` and
 * `destroy`, as transitions of its state, and what they promise.
 */
module Lifecycle {
  import opened Wrappers
  import opened Scripts

  /** The configured properties: the init scripts (`None` for a null array,
      `None` elements for null entries), the destroy script, the data source
      and the `initialize` switch. */
  datatype Config = Config(
    initScripts: Option<seq<Option<Resource>>>,
    destroyScript: Option<Resource>,
    dataSource: Option<DataSource>,
    initialize: bool)

  /** The state the hooks change: the `initialized` flag and the statements
      sent to the database so far. */
  datatype State = State(initialized: bool, log: seq<Attempt>)

  /** How a call of `afterPropertiesSet` ended, and the state afterwards. */
  datatype Transition = Transition(outcome: Outcome<Error>, state: State)

  /** One script run on a log, as `doExecuteScript` on one data source. */
  type Step = (seq<Attempt>, Option<Resource>) -> Run

  /** Scripts run one after another with `step`, each on the log its
      predecessors left, stopping at the first that fails. The step is a
      parameter so that the lemmas about the loop never unfold how a single
      script runs; `RunScripts` is this loop with `doExecuteScript` as step. */
  function RunEach(step: Step, log: seq<Attempt>, scripts: seq<Option<Resource>>): Run
    decreases |scripts|
  {
    if scripts == [] then Run(Pass, log)
    else
      var before := RunEach(step, log, scripts[..|scripts| - 1]);
      if before.outcome.Fail? then before
      else step(before.log, scripts[|scripts| - 1])
  }

  /** Script `k` completes with `step` when run on the log its predecessors left. */
  predicate CompletesWith(step: Step, log: seq<Attempt>, scripts: seq<Option<Resource>>, k: nat)
    requires k < |scripts|
  {
    step(RunEach(step, log, scripts[..k]).log, scripts[k]).outcome.Pass?
  }

  lemma TakeTake<T>(s: seq<T>, n: nat, k: nat)
    requires k <= n <= |s|
    ensures s[..n][..k] == s[..k]
    ensures k < n ==> s[..n][k] == s[k]
    ensures s[..|s|] == s
  {
  }

  /** When every step only appends to the log, so does running them all. */
  lemma {:induction false} RunEachGrows(step: Step, log: seq<Attempt>, scripts: seq<Option<Resource>>)
    requires forall l, x :: l <= step(l, x).log
    ensures log <= RunEach(step, log, scripts).log
    decreases |scripts|
  {
    if scripts != [] {
      RunEachGrows(step, log, scripts[..|scripts| - 1]);
    }
  }

  /** Running the scripts completes exactly when every one of them does. */
  lemma {:induction false} RunEachPasses(step: Step, log: seq<Attempt>, scripts: seq<Option<Resource>>)
    ensures RunEach(step, log, scripts).outcome.Pass? <==>
      forall k :: 0 <= k < |scripts| ==> CompletesWith(step, log, scripts, k)
    decreases |scripts|
  {
    if scripts != [] {
      var n := |scripts| - 1;
      var init := scripts[..n];
      RunEachPasses(step, log, init);
      if RunEach(step, log, scripts).outcome.Pass? {
        forall k | 0 <= k < |scripts|
          ensures CompletesWith(step, log, scripts, k)
        {
          if k < n {
            assert CompletesWith(step, log, init, k);
            TakeTake(scripts, n, k);
          }
        }
      } else if RunEach(step, log, init).outcome.Fail? {
        var j :| 0 <= j < n && !CompletesWith(step, log, init, j);
        TakeTake(scripts, n, j);
        assert !CompletesWith(step, log, scripts, j);
      } else {
        assert !CompletesWith(step, log, scripts, n);
      }
    }
  }

  /** Once script `k` fails, the later scripts never run. */
  lemma {:induction false} RunEachStopsAtFailure(step: Step, log: seq<Attempt>, scripts: seq<Option<Resource>>, k: nat)
    requires k < |scripts|
    requires RunEach(step, log, scripts[..k + 1]).outcome.Fail?
    ensures RunEach(step, log, scripts) == RunEach(step, log, scripts[..k + 1])
    decreases |scripts|
  {
    if k + 1 < |scripts| {
      var n := |scripts| - 1;
      TakeTake(scripts, n, k + 1);
      RunEachStopsAtFailure(step, log, scripts[..n], k);
    } else {
      TakeTake(scripts, k + 1, k + 1);
    }
  }

  /** `doExecuteScript` on the data source `ds`. */
  function ScriptStep(ds: Option<DataSource>): Step {
    (l, x) => RunScript(ds, l, x)
  }

  /** The init-script loop: the scripts in array order, each after its
      predecessors, stopping at the first that fails. */
  function RunScripts(ds: Option<DataSource>, log: seq<Attempt>, scripts: seq<Option<Resource>>): (r: Run)
    ensures log <= r.log
  {
    RunEachGrows(ScriptStep(ds), log, scripts);
    RunEach(ScriptStep(ds), log, scripts)
  }

  /** Init script `k` completes when run on the log its predecessors left. */
  predicate Completes(ds: Option<DataSource>, log: seq<Attempt>, scripts: seq<Option<Resource>>, k: nat)
    requires k < |scripts|
  {
    CompletesWith(ScriptStep(ds), log, scripts, k)
  }

  /** The init scripts complete exactly when every one of them does. */
  lemma RunScriptsPasses(ds: Option<DataSource>, log: seq<Attempt>, scripts: seq<Option<Resource>>)
    ensures RunScripts(ds, log, scripts).outcome.Pass? <==>
      forall k :: 0 <= k < |scripts| ==> Completes(ds, log, scripts, k)
  {
    RunEachPasses(ScriptStep(ds), log, scripts);
    assert RunScripts(ds, log, scripts) == RunEach(ScriptStep(ds), log, scripts);
    assert forall k :: 0 <= k < |scripts| ==>
      Completes(ds, log, scripts, k) == CompletesWith(ScriptStep(ds), log, scripts, k);
  }

  /** Once init script `k` fails, the later scripts never run: the result is
      that of the scripts up to and including `k`. */
  lemma RunScriptsStopsAtFailure(ds: Option<DataSource>, log: seq<Attempt>, scripts: seq<Option<Resource>>, k: nat)
    requires k < |scripts|
    requires RunScripts(ds, log, scripts[..k + 1]).outcome.Fail?
    ensures RunScripts(ds, log, scripts) == RunScripts(ds, log, scripts[..k + 1])
  {
    RunEachStopsAtFailure(ScriptStep(ds), log, scripts, k);
  }

  /** The init path of `afterPropertiesSet`: run the destroy script and ignore
      how it ends, then run the init scripts; the state is initialized exactly
      when they all complete. */
  function InitPath(c: Config, s: State): (t: Transition)
    requires c.initScripts.Some?
    ensures s.log <= t.state.log
    ensures var r := RunScripts(c.dataSource, RunScript(c.dataSource, s.log, c.destroyScript).log, c.initScripts.value);
      t.outcome == r.outcome && t.state.log == r.log
    ensures t.state.initialized <==> t.outcome.Pass?
  {
    var cleared := RunScript(c.dataSource, s.log, c.destroyScript);
    var r := RunScripts(c.dataSource, cleared.log, c.initScripts.value);
    Transition(r.outcome, State(r.outcome.Pass?, r.log))
  }

  /** `afterPropertiesSet`: fails without a data source and, before looking at
      the flags, on a null init-script array; does nothing when already
      initialized or not asked to initialize; otherwise takes the init path. */
  function AfterPropertiesSet(c: Config, s: State): (t: Transition)
    ensures c.dataSource.None? ==> t == Transition(Fail(MissingDataSource), s)
    ensures c.dataSource.Some? && c.initScripts.None? ==> t == Transition(Fail(NullInitScripts), s)
    ensures c.dataSource.Some? && c.initScripts.Some? && (s.initialized || !c.initialize) ==> t == Transition(Pass, s)
    ensures t.state.initialized <==> s.initialized || (c.initialize && t.outcome.Pass?)
    ensures s.log <= t.state.log
  {
    if c.dataSource.None? then Transition(Fail(MissingDataSource), s)
    else if c.initScripts.None? then Transition(Fail(NullInitScripts), s)
    else if s.initialized || !c.initialize then Transition(Pass, s)
    else InitPath(c, s)
  }

  /** `destroy`: nothing unless initialized; with a destroy script, run it and
      clear the flag only if it completes; never fails. */
  function Destroy(c: Config, s: State): (s': State)
    ensures !s.initialized || c.destroyScript.None? ==> s' == s
    ensures s'.initialized <==>
      s.initialized && (c.destroyScript.None? || RunScript(c.dataSource, s.log, c.destroyScript).outcome.Fail?)
    ensures s.log <= s'.log
    ensures s.initialized && c.destroyScript.Some? ==> s'.log == RunScript(c.dataSource, s.log, c.destroyScript).log
  {
    if !s.initialized || c.destroyScript.None? then s
    else
      var r := RunScript(c.dataSource, s.log, c.destroyScript);
      State(r.outcome.Fail?, r.log)
  }

  /** A second `afterPropertiesSet` after one that returned normally executes
      nothing and changes nothing. */
  lemma AfterPropertiesSetIdempotent(c: Config, s: State)
    requires AfterPropertiesSet(c, s).outcome.Pass?
    ensures var s' := AfterPropertiesSet(c, s).state;
      AfterPropertiesSet(c, s') == Transition(Pass, s')
  {
  }

  /** On the init path the destroy script's statements come first, its
      failure is swallowed, and the flag is set exactly when every init
      script, in array order, completes. */
  lemma InitializedIffAllInitScriptsComplete(c: Config, s: State)
    requires c.dataSource.Some? && c.initScripts.Some?
    requires !s.initialized && c.initialize
    ensures var cleared := RunScript(c.dataSource, s.log, c.destroyScript);
      var t := AfterPropertiesSet(c, s);
      && cleared.log <= t.state.log
      && (t.state.initialized <==>
            forall k :: 0 <= k < |c.initScripts.value| ==> Completes(c.dataSource, cleared.log, c.initScripts.value, k))
  {
    var cleared := RunScript(c.dataSource, s.log, c.destroyScript);
    RunScriptsPasses(c.dataSource, cleared.log, c.initScripts.value);
  }

  /** When the init scripts up to `k` fail, `afterPropertiesSet` reports that
      prefix's failure, the scripts after `k` never run, and the state stays
      uninitialized. */
  lemma InitStopsAtFirstFailingScript(c: Config, s: State, k: nat)
    requires c.dataSource.Some? && c.initScripts.Some?
    requires !s.initialized && c.initialize
    requires k < |c.initScripts.value|
    requires var cleared := RunScript(c.dataSource, s.log, c.destroyScript);
      RunScripts(c.dataSource, cleared.log, c.initScripts.value[..k + 1]).outcome.Fail?
    ensures var cleared := RunScript(c.dataSource, s.log, c.destroyScript);
      var prefix := RunScripts(c.dataSource, cleared.log, c.initScripts.value[..k + 1]);
      AfterPropertiesSet(c, s) == Transition(prefix.outcome, State(false, prefix.log))
  {
    var cleared := RunScript(c.dataSource, s.log, c.destroyScript);
    RunScriptsStopsAtFailure(c.dataSource, cleared.log, c.initScripts.value, k);
  }

  /** After a completed `destroy`, `afterPropertiesSet` takes the init path
      again: it reruns the destroy script and then the init scripts. */
  lemma RestartReinitializes(c: Config, s: State)
    requires c.dataSource.Some? && c.initScripts.Some? && c.initialize
    requires AfterPropertiesSet(c, s).outcome.Pass?
    requires !Destroy(c, AfterPropertiesSet(c, s).state).initialized
    ensures var stopped := Destroy(c, AfterPropertiesSet(c, s).state);
      AfterPropertiesSet(c, stopped) == InitPath(c, stopped)
  {
  }
}
