/** The lifecycle orchestrator of application.go: construction by
    functional options, the Idle/Running/Finished run-state machine that
    guards `Run` and `Stop`, the per-component task rules of one run, and
    the rule that turns the failure group's error into `Run`'s result.
    Goroutines are not modelled: one run is described by the environment
    it meets (`RunEnv`), and the calls that reach components are logged. */
module Bootstrap {
  import opened Contract

  newtype int32 = x: int | -0x8000_0000 <= x < 0x8000_0000
  newtype int64 = x: int | -0x8000_0000_0000_0000 <= x < 0x8000_0000_0000_0000

  /** The run states (application.go:38-44). */
  const StateIdle: int32 := 0
  const StateRunning: int32 := 1
  const StateFinished: int32 := 2

  /** `time.Second`, in nanoseconds, as `time.Duration` counts. */
  const Second: int64 := 1_000_000_000
  const DefaultStopTimeout: int64 := 10 * Second

  // ---------------------------------------------------------------------
  // Construction by options
  // ---------------------------------------------------------------------

  /** The parent context a run's root context is derived from. */
  datatype Context = Background | Supplied(id: Ctx)

  /** The `Option` values of application.go:16-36; `NilOption` is a nil
      `Option`. */
  datatype AppOption =
    | NilOption
    | WithContext(ctx: Context)
    | WithServers(servers: seq<ServerId>)
    | WithStopTimeout(timeout: int64)

  /** The settings options act on. */
  datatype Config = Config(ctx: Context, servers: seq<ServerId>, stopTimeout: int64)

  /** What `New` sets before it applies any option (application.go:62-65). */
  const Defaults := Config(Background, [], DefaultStopTimeout)

  /** The effect of one option; a nil option is skipped. */
  function Apply(c: Config, opt: AppOption): (r: Config)
    ensures r.ctx == if opt.WithContext? then opt.ctx else c.ctx
    ensures r.servers == c.servers + if opt.WithServers? then opt.servers else []
    ensures r.stopTimeout == if opt.WithStopTimeout? then opt.timeout else c.stopTimeout
  {
    match opt
    case NilOption => c
    case WithContext(ctx) => c.(ctx := ctx)
    case WithServers(s) => if |s| > 0 then c.(servers := c.servers + s) else c
    case WithStopTimeout(t) => c.(stopTimeout := t)
  }

  /** Options applied left to right. */
  function ApplyAll(c: Config, opts: seq<AppOption>): (r: Config)
    decreases |opts|
  {
    if opts == [] then c else Apply(ApplyAll(c, opts[..|opts| - 1]), opts[|opts| - 1])
  }

  /** The servers the options register, in the order given. */
  function ServersOf(opts: seq<AppOption>): (s: seq<ServerId>)
  {
    if opts == [] then []
    else (if opts[0].WithServers? then opts[0].servers else []) + ServersOf(opts[1..])
  }

  lemma {:induction false} ApplyAllAppend(c: Config, a: seq<AppOption>, b: seq<AppOption>)
    ensures ApplyAll(c, a + b) == ApplyAll(ApplyAll(c, a), b)
    decreases |b|
  {
    if b == [] {
      assert a + b == a;
    } else {
      assert (a + b)[..|a + b| - 1] == a + b[..|b| - 1];
      ApplyAllAppend(c, a, b[..|b| - 1]);
    }
  }

  lemma {:induction false} ApplyAllCons(c: Config, opts: seq<AppOption>)
    requires opts != []
    ensures ApplyAll(c, opts) == ApplyAll(Apply(c, opts[0]), opts[1..])
  {
    assert opts == [opts[0]] + opts[1..];
    ApplyAllAppend(c, [opts[0]], opts[1..]);
    assert ApplyAll(c, [opts[0]]) == Apply(ApplyAll(c, []), opts[0]);
  }

  /** A nil option anywhere in the list changes nothing. */
  lemma {:induction false} NilOptionSkipped(c: Config, a: seq<AppOption>, b: seq<AppOption>)
    ensures ApplyAll(c, a + [NilOption] + b) == ApplyAll(c, a + b)
  {
    ApplyAllAppend(c, a + [NilOption], b);
    ApplyAllAppend(c, a, b);
    assert (a + [NilOption])[..|a + [NilOption]| - 1] == a;
  }

  /** `WithServers` appends its arguments after the servers already
      registered, in order; one with no arguments leaves the list alone. */
  lemma {:induction false} ServersAppended(c: Config, opts: seq<AppOption>)
    ensures ApplyAll(c, opts).servers == c.servers + ServersOf(opts)
    decreases |opts|
  {
    if opts == [] {
      assert c.servers + [] == c.servers;
    } else {
      ApplyAllCons(c, opts);
      ServersAppended(Apply(c, opts[0]), opts[1..]);
      var mine := if opts[0].WithServers? then opts[0].servers else [];
      assert Apply(c, opts[0]).servers == c.servers + mine;
      assert c.servers + mine + ServersOf(opts[1..]) == c.servers + (mine + ServersOf(opts[1..]));
    }
  }

  /** The last `WithStopTimeout` wins. */
  lemma {:induction false} LastStopTimeoutWins(c: Config, opts: seq<AppOption>, k: nat)
    requires k < |opts| && opts[k].WithStopTimeout?
    requires forall j :: k < j < |opts| ==> !opts[j].WithStopTimeout?
    ensures ApplyAll(c, opts).stopTimeout == opts[k].timeout
    decreases |opts|
  {
    var init := opts[..|opts| - 1];
    if k < |opts| - 1 {
      assert forall j :: k < j < |init| ==> init[j] == opts[j];
      LastStopTimeoutWins(c, init, k);
    }
  }

  /** Without `WithStopTimeout`, the timeout stays what it was (for `New`,
      ten seconds). */
  lemma {:induction false} StopTimeoutKept(c: Config, opts: seq<AppOption>)
    requires forall j :: 0 <= j < |opts| ==> !opts[j].WithStopTimeout?
    ensures ApplyAll(c, opts).stopTimeout == c.stopTimeout
    decreases |opts|
  {
    if opts != [] {
      var init := opts[..|opts| - 1];
      assert forall j :: 0 <= j < |init| ==> init[j] == opts[j];
      StopTimeoutKept(c, init);
    }
  }

  /** The last `WithContext` wins. */
  lemma {:induction false} LastContextWins(c: Config, opts: seq<AppOption>, k: nat)
    requires k < |opts| && opts[k].WithContext?
    requires forall j :: k < j < |opts| ==> !opts[j].WithContext?
    ensures ApplyAll(c, opts).ctx == opts[k].ctx
    decreases |opts|
  {
    var init := opts[..|opts| - 1];
    if k < |opts| - 1 {
      assert forall j :: k < j < |init| ==> init[j] == opts[j];
      LastContextWins(c, init, k);
    }
  }

  /** Without `WithContext`, the parent context stays what it was (for
      `New`, the background context). */
  lemma {:induction false} ContextKept(c: Config, opts: seq<AppOption>)
    requires forall j :: 0 <= j < |opts| ==> !opts[j].WithContext?
    ensures ApplyAll(c, opts).ctx == c.ctx
    decreases |opts|
  {
    if opts != [] {
      var init := opts[..|opts| - 1];
      assert forall j :: 0 <= j < |init| ==> init[j] == opts[j];
      ContextKept(c, init);
    }
  }

  // ---------------------------------------------------------------------
  // The run-state machine
  // ---------------------------------------------------------------------

  /** The operations that touch the run state: the guard of `Run`
      (application.go:76-85) and `Stop` (application.go:135-142). */
  datatype AppOp = RunOp | StopOp

  /** The run state and whether the root context has been cancelled. */
  datatype View = View(state: int32, cancelled: bool)

  /** The reply of one operation and the view after it. */
  datatype Reply = Reply(view: View, err: Option<Error>)

  /** The guard of `Run` (application.go:76-84) by the state it finds:
      nil when the compare-and-swap from Idle succeeds, otherwise the
      rejection that names the observed state. */
  function Admit(s: int32): (r: Option<Error>)
    ensures r == None <==> s == StateIdle
    ensures r == Some(ApplicationRunning) <==> s == StateRunning
    ensures r == Some(ApplicationFinished) <==> s == StateFinished
    ensures r == Some(BadApplication) <==> s !in {StateIdle, StateRunning, StateFinished}
  {
    if s == StateIdle then None
    else if s == StateRunning then Some(ApplicationRunning)
    else if s == StateFinished then Some(ApplicationFinished)
    else Some(BadApplication)
  }

  function StepApp(v: View, op: AppOp): (r: Reply)
    ensures op.StopOp? ==> r == Reply(View(StateFinished, true), None)
    ensures op.RunOp? ==> (r.err == None <==> v.state == StateIdle)
    ensures op.RunOp? && r.err == None ==> r.view == View(StateRunning, v.cancelled)
    ensures op.RunOp? && r.err != None ==> r.view == v && r.err == Admit(v.state)
  {
    match op
    case RunOp =>
      if v.state == StateIdle then Reply(View(StateRunning, v.cancelled), None)
      else Reply(v, Admit(v.state))
    case StopOp => Reply(View(StateFinished, true), None)
  }

  /** The final view and the replies, in order, of a sequence of operations. */
  datatype History = History(view: View, replies: seq<Option<Error>>)

  function AppTrace(v: View, ops: seq<AppOp>): (h: History)
    ensures |h.replies| == |ops|
    decreases |ops|
  {
    if ops == [] then History(v, [])
    else
      var r := StepApp(v, ops[0]);
      var rest := AppTrace(r.view, ops[1..]);
      History(rest.view, [r.err] + rest.replies)
  }

  /** The views the orchestrator can be in: one of the three states, and
      cancelled only once Finished. */
  predicate ValidView(v: View)
  {
    v.state in {StateIdle, StateRunning, StateFinished} && (v.cancelled ==> v.state == StateFinished)
  }

  lemma {:induction false} AppTraceAppend(v: View, a: seq<AppOp>, b: seq<AppOp>)
    ensures AppTrace(v, a + b).view == AppTrace(AppTrace(v, a).view, b).view
    decreases |a|
  {
    if a == [] {
      assert a + b == b;
    } else {
      assert (a + b)[1..] == a[1..] + b;
      AppTraceAppend(StepApp(v, a[0]).view, a[1..], b);
    }
  }

  /** Finished is absorbing: no operation leaves it, and every later `Run`
      is rejected with `ApplicationFinished`. */
  lemma {:induction false} FinishedIsAbsorbing(v: View, ops: seq<AppOp>)
    requires v.state == StateFinished
    ensures AppTrace(v, ops).view.state == StateFinished
    ensures forall k :: 0 <= k < |ops| && ops[k].RunOp? ==> AppTrace(v, ops).replies[k] == Some(ApplicationFinished)
    decreases |ops|
  {
    if ops != [] {
      var r := StepApp(v, ops[0]);
      FinishedIsAbsorbing(r.view, ops[1..]);
      var h := AppTrace(v, ops);
      var rest := AppTrace(r.view, ops[1..]);
      assert forall k :: 1 <= k < |ops| ==> h.replies[k] == rest.replies[k - 1] && ops[k] == ops[1..][k - 1];
    }
  }

  /** `Stop` before anything else, even before any `Run`, leaves the
      orchestrator Finished for good, and every later `Run` is rejected. */
  lemma StopThenRunRejected(v: View, ops: seq<AppOp>)
    ensures AppTrace(v, [StopOp] + ops).view.state == StateFinished
    ensures forall k :: 0 <= k < |ops| && ops[k].RunOp? ==> AppTrace(v, [StopOp] + ops).replies[k + 1] == Some(ApplicationFinished)
  {
    var w := StepApp(v, StopOp).view;
    assert ([StopOp] + ops)[1..] == ops;
    FinishedIsAbsorbing(w, ops);
  }

  /** Once the state has left Idle it never comes back, and no `Run` is
      admitted. */
  lemma {:induction false} NeverIdleAgain(v: View, ops: seq<AppOp>)
    requires v.state != StateIdle
    ensures AppTrace(v, ops).view.state != StateIdle
    ensures forall k :: 0 <= k < |ops| && ops[k].RunOp? ==> AppTrace(v, ops).replies[k] != None
    decreases |ops|
  {
    if ops != [] {
      var r := StepApp(v, ops[0]);
      NeverIdleAgain(r.view, ops[1..]);
      var h := AppTrace(v, ops);
      var rest := AppTrace(r.view, ops[1..]);
      assert forall k :: 1 <= k < |ops| ==> h.replies[k] == rest.replies[k - 1] && ops[k] == ops[1..][k - 1];
    }
  }

  /** At most one `Run` is ever admitted; none if the orchestrator was not
      Idle to begin with. */
  lemma {:induction false} RunAdmittedAtMostOnce(v: View, ops: seq<AppOp>)
    ensures forall j, k :: 0 <= j < k < |ops| && ops[j].RunOp? && ops[k].RunOp? ==>
      AppTrace(v, ops).replies[j] != None || AppTrace(v, ops).replies[k] != None
    ensures v.state != StateIdle ==> forall k :: 0 <= k < |ops| && ops[k].RunOp? ==> AppTrace(v, ops).replies[k] != None
    decreases |ops|
  {
    if v.state != StateIdle {
      NeverIdleAgain(v, ops);
    } else if ops != [] {
      var r := StepApp(v, ops[0]);
      var h := AppTrace(v, ops);
      var rest := AppTrace(r.view, ops[1..]);
      assert forall k :: 1 <= k < |ops| ==> h.replies[k] == rest.replies[k - 1] && ops[k] == ops[1..][k - 1];
      if ops[0].RunOp? {
        NeverIdleAgain(r.view, ops[1..]);
      } else {
        FinishedIsAbsorbing(r.view, ops[1..]);
      }
    }
  }

  /** `Stop` is idempotent: a second `Stop` right after one leaves the same
      state as the first alone, whatever comes before and after. */
  lemma StopIdempotent(v: View, a: seq<AppOp>, b: seq<AppOp>)
    ensures AppTrace(v, a + [StopOp, StopOp] + b).view == AppTrace(v, a + [StopOp] + b).view
  {
    var w := AppTrace(v, a).view;
    AppTraceAppend(v, a, [StopOp, StopOp] + b);
    AppTraceAppend(v, a, [StopOp] + b);
    assert a + [StopOp, StopOp] + b == a + ([StopOp, StopOp] + b);
    assert a + [StopOp] + b == a + ([StopOp] + b);
    assert ([StopOp, StopOp] + b)[1..] == [StopOp] + b;
    assert ([StopOp] + b)[1..] == b;
    assert ([StopOp] + b)[1..][..0] == [];
  }

  /** From a valid view every view reached is valid, so the catch-all
      rejection `BadApplication` is never given. */
  lemma {:induction false} BadApplicationUnreachable(v: View, ops: seq<AppOp>)
    requires ValidView(v)
    ensures ValidView(AppTrace(v, ops).view)
    ensures forall k :: 0 <= k < |ops| ==> AppTrace(v, ops).replies[k] != Some(BadApplication)
    decreases |ops|
  {
    if ops != [] {
      var r := StepApp(v, ops[0]);
      BadApplicationUnreachable(r.view, ops[1..]);
      var h := AppTrace(v, ops);
      var rest := AppTrace(r.view, ops[1..]);
      assert forall k :: 1 <= k < |ops| ==> h.replies[k] == rest.replies[k - 1];
    }
  }

  // ---------------------------------------------------------------------
  // One run: tasks, the failure group and the result filter
  // ---------------------------------------------------------------------

  /** What cancels a run's context first. */
  datatype Trigger =
    | Signalled   // a shutdown signal arrived and the signal task called Stop
    | Stopped     // another goroutine called Stop
    | ParentDone  // the context supplied through WithContext was cancelled
    | TaskFailed  // a start task returned an error, and the group cancelled its context

  /** The environment one run meets, per server slot (registration
      position): whether the context was already done when the slot's
      start task checked it, what the server's `Start` and `Stop` return
      if called; then the first trigger of cancellation, whether `Stop` is
      also called after that trigger and before `Run` returns (by another
      goroutine, or by the signal task when a signal and the cancellation
      are both ready), and the order in which the run's tasks complete. Tasks are numbered in the order
      application.go:90-117 spawns them: `2 * i` is slot `i`'s stop task,
      `2 * i + 1` its start task, `2 * n` the signal task. */
  datatype RunEnv = RunEnv(
    doneAtStart: seq<bool>,
    startReplies: seq<Option<Error>>,
    stopReplies: seq<Option<Error>>,
    trigger: Trigger,
    lateStop: bool,
    order: seq<nat>)

  function TaskCount(n: nat): (c: nat)
  {
    2 * n + 1
  }

  /** `order` lists each of `count` tasks. */
  predicate IsOrder(order: seq<nat>, count: nat)
  {
    && |order| == count
    && (forall k :: 0 <= k < count ==> order[k] < count)
    && (forall t :: 0 <= t < count ==> t in order)
  }

  predicate Sized(env: RunEnv, n: nat)
  {
    |env.doneAtStart| == n && |env.startReplies| == n && |env.stopReplies| == n
  }

  /** An environment a run over `n` servers with parent context `parent`
      can meet: a parent can only be cancelled when one was supplied, and
      a failing task is a start task that ran and returned an error. */
  predicate WellFormed(env: RunEnv, n: nat, parent: Context)
  {
    && Sized(env, n)
    && IsOrder(env.order, TaskCount(n))
    && (env.trigger.ParentDone? ==> parent.Supplied?)
    && (env.trigger.TaskFailed? ==> exists i :: 0 <= i < n && !env.doneAtStart[i] && env.startReplies[i].Some?)
  }

  /** The start task (application.go:101-109): nil if the context is
      already done, otherwise whatever `Start` returns. */
  function StartTaskResult(done: bool, reply: Option<Error>): (r: Option<Error>)
    ensures done ==> r == None
    ensures !done ==> r == reply
  {
    if done then None else reply
  }

  /** The result of task `t`. The stop task (application.go:92-97) returns
      what `Stop` returns; the signal task (application.go:117-124)
      returns nil either way, since `Stop` always returns nil. */
  function TaskResult(env: RunEnv, n: nat, t: nat): (r: Option<Error>)
    requires Sized(env, n) && t < TaskCount(n)
    ensures r.Some? ==> t < 2 * n
    ensures r.Some? && t % 2 == 0 ==> r == env.stopReplies[t / 2]
    ensures r.Some? && t % 2 == 1 ==> !env.doneAtStart[t / 2] && r == env.startReplies[t / 2]
    ensures t < 2 * n && t % 2 == 0 ==> r == env.stopReplies[t / 2]
    ensures t < 2 * n && t % 2 == 1 && !env.doneAtStart[t / 2] ==> r == env.startReplies[t / 2]
  {
    if t == 2 * n then None
    else if t % 2 == 0 then env.stopReplies[t / 2]
    else StartTaskResult(env.doneAtStart[t / 2], env.startReplies[t / 2])
  }

  /** Slot `j`'s two tasks: its stop task returns the `Stop` reply, its
      start task the start-task rule's result. */
  lemma SlotTasks(env: RunEnv, n: nat, j: nat)
    requires Sized(env, n) && j < n
    ensures TaskResult(env, n, 2 * j) == env.stopReplies[j]
    ensures TaskResult(env, n, 2 * j + 1) == StartTaskResult(env.doneAtStart[j], env.startReplies[j])
  {
    assert (2 * j) % 2 == 0 && (2 * j) / 2 == j;
    assert (2 * j + 1) % 2 == 1 && (2 * j + 1) / 2 == j;
  }

  /** Start-task results computed slot by slot are the start tasks'
      `TaskResult`s. */
  lemma StartTasksAgree(env: RunEnv, n: nat, starts: seq<Option<Error>>)
    requires Sized(env, n) && |starts| == n
    requires forall j :: 0 <= j < n ==> starts[j] == StartTaskResult(env.doneAtStart[j], env.startReplies[j])
    ensures forall j :: 0 <= j < n ==> starts[j] == TaskResult(env, n, 2 * j + 1)
  {
    forall j | 0 <= j < n
      ensures starts[j] == TaskResult(env, n, 2 * j + 1)
    {
      SlotTasks(env, n, j);
    }
  }

  /** The `Stop` replies are the stop tasks' `TaskResult`s. */
  lemma StopTasksAgree(env: RunEnv, n: nat)
    requires Sized(env, n)
    ensures forall j :: 0 <= j < n ==> env.stopReplies[j] == TaskResult(env, n, 2 * j)
  {
    forall j | 0 <= j < n
      ensures env.stopReplies[j] == TaskResult(env, n, 2 * j)
    {
      SlotTasks(env, n, j);
    }
  }

  /** The results the slots' tasks returned, picked in completion order
      (the signal task returning nil), are the run's `Completions`. */
  lemma ReturnedAreCompletions(env: RunEnv, n: nat, starts: seq<Option<Error>>, stops: seq<Option<Error>>, results: seq<Option<Error>>)
    requires Sized(env, n) && IsOrder(env.order, TaskCount(n))
    requires |starts| == n && |stops| == n
    requires forall j :: 0 <= j < n ==> starts[j] == TaskResult(env, n, 2 * j + 1)
    requires forall j :: 0 <= j < n ==> stops[j] == TaskResult(env, n, 2 * j)
    requires |results| == |env.order|
    requires forall k :: 0 <= k < |results| ==>
      results[k] == if env.order[k] == 2 * n then None else if env.order[k] % 2 == 0 then stops[env.order[k] / 2] else starts[env.order[k] / 2]
    ensures results == Completions(env, n)
  {
    forall k | 0 <= k < |results|
      ensures results[k] == Completions(env, n)[k]
    {
      var t := env.order[k];
      if t < 2 * n {
        var j := t / 2;
        if t % 2 == 0 {
          assert t == 2 * j;
        } else {
          assert t == 2 * j + 1;
        }
      }
    }
  }

  /** The failure group's error: the first non-nil result to complete. */
  function FirstError(rs: seq<Option<Error>>): (r: Option<Error>)
    ensures r.None? <==> forall i :: 0 <= i < |rs| ==> rs[i].None?
    ensures r.Some? ==> exists i :: 0 <= i < |rs| && rs[i] == r && forall j :: 0 <= j < i ==> rs[j].None?
  {
    if rs == [] then None
    else if rs[0].Some? then rs[0]
    else
      var r := FirstError(rs[1..]);
      assert forall i :: 1 <= i < |rs| ==> rs[i] == rs[1..][i - 1];
      r
  }

  /** The task results in completion order. */
  function Completions(env: RunEnv, n: nat): (rs: seq<Option<Error>>)
    requires Sized(env, n) && IsOrder(env.order, TaskCount(n))
  {
    seq(|env.order|, k requires 0 <= k < |env.order| => TaskResult(env, n, env.order[k]))
  }

  /** The result filter (application.go:125-128): nil for a nil group
      error or one that is `context.Canceled`, otherwise the error itself. */
  function Filter(e: Option<Error>): (r: Option<Error>)
    ensures r == None || r == e
    ensures r.Some? <==> e.Some? && !Is(e.value, Canceled)
  {
    if e.Some? && !Is(e.value, Canceled) then e else None
  }

  function RunResult(env: RunEnv, n: nat): (r: Option<Error>)
    requires Sized(env, n) && IsOrder(env.order, TaskCount(n))
  {
    Filter(FirstError(Completions(env, n)))
  }

  /** `Run` returns nil or, verbatim, an error that some task returned:
      one a server's `Start` or `Stop` actually gave, and never one that
      is `context.Canceled`. */
  lemma RunResultIsTaskError(env: RunEnv, n: nat)
    requires Sized(env, n) && IsOrder(env.order, TaskCount(n))
    ensures var r := RunResult(env, n);
      r.Some? ==>
        && !Is(r.value, Canceled)
        && exists i :: 0 <= i < n && ((!env.doneAtStart[i] && env.startReplies[i] == r) || env.stopReplies[i] == r)
  {
  }

  /** Normal shutdown is not a failure: when every task returns nil or a
      cancellation error, `Run` returns nil. */
  lemma CleanShutdown(env: RunEnv, n: nat)
    requires Sized(env, n) && IsOrder(env.order, TaskCount(n))
    requires forall t :: 0 <= t < TaskCount(n) ==> TaskResult(env, n, t).None? || Is(TaskResult(env, n, t).value, Canceled)
    ensures RunResult(env, n) == None
  {
  }

  /** A single failing task decides the result: `Run` returns exactly its
      error, whatever the completion order. */
  lemma SoleErrorReported(env: RunEnv, n: nat, t: nat, e: Error)
    requires Sized(env, n) && IsOrder(env.order, TaskCount(n))
    requires t < TaskCount(n) && TaskResult(env, n, t) == Some(e) && !Is(e, Canceled)
    requires forall u :: 0 <= u < TaskCount(n) && u != t ==> TaskResult(env, n, u).None?
    ensures RunResult(env, n) == Some(e)
  {
    var rs := Completions(env, n);
    assert t in env.order;
    var k :| 0 <= k < |env.order| && env.order[k] == t;
    assert rs[k] == Some(e);
    var g := FirstError(rs);
    var m :| 0 <= m < |rs| && rs[m] == g;
    assert TaskResult(env, n, env.order[m]) == g;
  }

  /** A cancellation error that completes before every other non-nil
      result hides every error completing after it: `Run` returns nil,
      however the later tasks failed. */
  lemma CancellationHidesLaterErrors(env: RunEnv, n: nat, k: nat)
    requires Sized(env, n) && IsOrder(env.order, TaskCount(n))
    requires k < |env.order| && TaskResult(env, n, env.order[k]).Some?
    requires Is(TaskResult(env, n, env.order[k]).value, Canceled)
    requires forall j :: 0 <= j < k ==> TaskResult(env, n, env.order[j]).None?
    ensures RunResult(env, n) == None
  {
    var rs := Completions(env, n);
    assert rs[k] == TaskResult(env, n, env.order[k]);
    var m :| 0 <= m < |rs| && rs[m] == FirstError(rs) && forall j :: 0 <= j < m ==> rs[j].None?;
    if m < k {
      assert rs[m] == TaskResult(env, n, env.order[m]);
    }
  }

  /** The usual shutdown: `Stop` cancels the context, the server's `Start`
      returns `context.Canceled` first, and its `Stop` then fails. The
      failure of `Stop` is not reported. */
  lemma StopFailureHidden()
    ensures var env := RunEnv([false], [Some(Canceled)], [Some(Failure(7))], Stopped, false, [1, 0, 2]);
      && WellFormed(env, 1, Background)
      && TaskResult(env, 1, 0) == Some(Failure(7))
      && RunResult(env, 1) == None
  {
    var env := RunEnv([false], [Some(Canceled)], [Some(Failure(7))], Stopped, false, [1, 0, 2]);
    assert env.order[0] == 1 && env.order[1] == 0 && env.order[2] == 2;
    CancellationHidesLaterErrors(env, 1, 0);
  }

  /** One server whose `Start` fails with an error that is not a
      cancellation, and whose `Stop` succeeds: `Run` returns that error in
      every completion order. */
  lemma StartFailureReported(env: RunEnv, e: Error)
    requires Sized(env, 1) && IsOrder(env.order, TaskCount(1))
    requires !env.doneAtStart[0] && env.startReplies[0] == Some(e) && !Is(e, Canceled)
    requires env.stopReplies[0] == None
    ensures RunResult(env, 1) == Some(e)
  {
    SoleErrorReported(env, 1, 1, e);
  }

  /** The calls that reach components. */
  datatype Call =
    | StartCall(slot: nat, server: ServerId)
    | StopCall(slot: nat, server: ServerId, timeout: int64)

  /** The `Start` calls the start tasks of slots `0 .. k - 1` make. */
  function StartCalls(servers: seq<ServerId>, done: seq<bool>, k: nat): (log: seq<Call>)
    requires k <= |servers| && |done| == |servers|
  {
    if k == 0 then []
    else StartCalls(servers, done, k - 1) + (if done[k - 1] then [] else [StartCall(k - 1, servers[k - 1])])
  }

  /** The `Stop` calls the stop tasks of slots `0 .. k - 1` make once the
      context is cancelled. */
  function StopCalls(servers: seq<ServerId>, timeout: int64, k: nat): (log: seq<Call>)
    requires k <= |servers|
  {
    if k == 0 then [] else StopCalls(servers, timeout, k - 1) + [StopCall(k - 1, servers[k - 1], timeout)]
  }

  /** The `Start` calls made are those of the slots whose context was
      not yet done at their start task, each naming the slot's server. */
  lemma {:induction false} StartCalledIffNotDone(servers: seq<ServerId>, done: seq<bool>, k: nat)
    requires k <= |servers| && |done| == |servers|
    ensures forall c :: c in StartCalls(servers, done, k) <==>
      c.StartCall? && c.slot < k && c.server == servers[c.slot] && !done[c.slot]
  {
    if k > 0 {
      StartCalledIffNotDone(servers, done, k - 1);
    }
  }

  lemma {:induction false} StartSlotsBelow(servers: seq<ServerId>, done: seq<bool>, k: nat)
    requires k <= |servers| && |done| == |servers|
    ensures forall c :: c in StartCalls(servers, done, k) ==> c.slot < k
  {
    if k > 0 {
      StartSlotsBelow(servers, done, k - 1);
    }
  }

  /** Calls listed in strictly increasing slot order: no slot twice. */
  predicate SlotOrdered(log: seq<Call>)
  {
    forall a, b :: 0 <= a < b < |log| ==> log[a].slot < log[b].slot
  }

  /** The `Start` calls come in slot order, so no slot's `Start` is called
      twice; with `StartCalledIffNotDone`, each slot whose context was not
      yet done is started exactly once. */
  lemma {:induction false} StartCalledOnce(servers: seq<ServerId>, done: seq<bool>, k: nat)
    requires k <= |servers| && |done| == |servers|
    ensures SlotOrdered(StartCalls(servers, done, k))
  {
    if k > 0 {
      StartCalledOnce(servers, done, k - 1);
      var prev := StartCalls(servers, done, k - 1);
      var log := StartCalls(servers, done, k);
      if !done[k - 1] {
        StartSlotsBelow(servers, done, k - 1);
        assert log == prev + [StartCall(k - 1, servers[k - 1])];
        forall a, b | 0 <= a < b < |log|
          ensures log[a].slot < log[b].slot
        {
          assert log[a] == prev[a] && prev[a] in prev;
          if b < |prev| {
            assert log[b] == prev[b];
            assert prev[a].slot < prev[b].slot;
          }
        }
      } else {
        assert log == prev + [];
        assert prev + [] == prev;
      }
    }
  }

  /** Every registered slot is stopped exactly once, in slot order, with
      the slot's server and the configured stop timeout, and nothing else
      is stopped. */
  lemma {:induction false} StoppedExactlyOnce(servers: seq<ServerId>, timeout: int64, k: nat)
    requires k <= |servers|
    ensures |StopCalls(servers, timeout, k)| == k
    ensures forall j :: 0 <= j < k ==> StopCalls(servers, timeout, k)[j] == StopCall(j, servers[j], timeout)
  {
    if k > 0 {
      StoppedExactlyOnce(servers, timeout, k - 1);
    }
  }

  /** application.go:125-128: the failure group's first error over the
      results the tasks returned, in completion order, through the result
      filter. */
  method Collect(env: RunEnv, n: nat, starts: seq<Option<Error>>, stops: seq<Option<Error>>) returns (err: Option<Error>)
    requires Sized(env, n) && IsOrder(env.order, TaskCount(n))
    requires |starts| == n && |stops| == n
    requires forall j :: 0 <= j < n ==> starts[j] == TaskResult(env, n, 2 * j + 1)
    requires forall j :: 0 <= j < n ==> stops[j] == TaskResult(env, n, 2 * j)
    ensures err == RunResult(env, n)
  {
    var results := seq(|env.order|, k requires 0 <= k < |env.order| =>
      if env.order[k] == 2 * n then None
      else if env.order[k] % 2 == 0 then stops[env.order[k] / 2]
      else starts[env.order[k] / 2]);
    ReturnedAreCompletions(env, n, starts, stops, results);
    err := Filter(FirstError(results));
  }

  /** Whether a run's first trigger goes through `Stop`. */
  predicate ViaStop(t: Trigger)
  {
    t.Signalled? || t.Stopped?
  }

  /** The state-machine operations of one admitted run: the guard, a
      `Stop` if the first trigger goes through `Stop`, and a `Stop` if one
      is also called later. */
  function RunOps(env: RunEnv): (ops: seq<AppOp>)
    ensures |ops| >= 1 && ops[0] == RunOp
    ensures forall k :: 1 <= k < |ops| ==> ops[k] == StopOp
    ensures |ops| > 1 <==> ViaStop(env.trigger) || env.lateStop
  {
    [RunOp] + (if ViaStop(env.trigger) then [StopOp] else []) + (if env.lateStop then [StopOp] else [])
  }

  /** From Idle, a run ends Finished and cancelled exactly when `Stop` was
      called during it, and Running otherwise. */
  lemma RunOpsOutcome(cancelled: bool, env: RunEnv)
    ensures AppTrace(View(StateIdle, cancelled), RunOps(env)).view ==
      if ViaStop(env.trigger) || env.lateStop then View(StateFinished, true) else View(StateRunning, cancelled)
  {
    var v := View(StateIdle, cancelled);
    var w := View(StateRunning, cancelled);
    var f := View(StateFinished, true);
    assert [RunOp][1..] == [] && [RunOp, StopOp][1..] == [StopOp] && [StopOp][1..] == [];
    assert [RunOp, StopOp, StopOp][1..] == [StopOp, StopOp] && [StopOp, StopOp][1..] == [StopOp];
    assert AppTrace(f, [StopOp]).view == f;
    assert AppTrace(w, [StopOp]).view == f;
    assert AppTrace(w, [StopOp, StopOp]).view == AppTrace(f, [StopOp]).view;
    if ViaStop(env.trigger) && env.lateStop {
      assert RunOps(env) == [RunOp, StopOp, StopOp];
      assert AppTrace(v, [RunOp, StopOp, StopOp]).view == AppTrace(w, [StopOp, StopOp]).view;
    } else if ViaStop(env.trigger) || env.lateStop {
      assert RunOps(env) == [RunOp, StopOp];
      assert AppTrace(v, [RunOp, StopOp]).view == AppTrace(w, [StopOp]).view;
    } else {
      assert RunOps(env) == [RunOp];
    }
  }

  // ---------------------------------------------------------------------
  // The orchestrator
  // ---------------------------------------------------------------------

  /** `Application` (application.go:52-59). `ctx` is the parent context
      the root context was derived from; `cancelled` records that the root
      context's cancel function has been called. */
  class Application {
    var ctx: Context
    var cancelled: bool
    var stopTimeout: int64
    var servers: seq<ServerId>
    var state: int32
    /** The calls that reached components: the `Start` calls of a run in
        slot order, then its `Stop` calls in slot order. This is not the
        real-time order, which the tasks do not fix. */
    ghost var calls: seq<Call>

    function Settings(): (c: Config)
      reads this
    {
      Config(ctx, servers, stopTimeout)
    }

    function Status(): (v: View)
      reads this
    {
      View(state, cancelled)
    }

    ghost predicate Valid()
      reads this
    {
      ValidView(Status())
    }

    /** application.go:61-73: the defaults, then every option in order,
        nil ones skipped. */
    constructor New(opts: seq<AppOption>)
      ensures Settings() == ApplyAll(Defaults, opts)
      ensures state == StateIdle && !cancelled && calls == []
      ensures Valid()
    {
      ctx := Background;
      stopTimeout := DefaultStopTimeout;
      servers := [];
      state := StateIdle;
      cancelled := false;
      calls := [];
      new;
      var i := 0;
      while i < |opts|
        invariant 0 <= i <= |opts|
        invariant Settings() == ApplyAll(Defaults, opts[..i])
        invariant state == StateIdle && !cancelled && calls == []
      {
        if !opts[i].NilOption? {
          ApplyOption(opts[i]);
        }
        assert opts[..i + 1][..i] == opts[..i];
        i := i + 1;
      }
      assert opts[..|opts|] == opts;
    }

    /** Calling one (non-nil) option on the application. */
    method ApplyOption(opt: AppOption)
      requires !opt.NilOption?
      modifies this
      ensures Settings() == Apply(old(Settings()), opt)
      ensures state == old(state) && cancelled == old(cancelled) && calls == old(calls)
    {
      match opt
      case WithContext(c) =>
        ctx := c;
      case WithServers(s) =>
        if |s| > 0 {
          servers := servers + s;
        }
      case WithStopTimeout(t) =>
        stopTimeout := t;
    }

    /** application.go:131-133. */
    method State() returns (s: int32)
      ensures s == state
    {
      s := state;
    }

    /** application.go:135-142: store Finished and cancel the root
        context, whatever the state; never fails. */
    method Stop() returns (err: Option<Error>)
      modifies this
      ensures Status() == StepApp(old(Status()), StopOp).view
      ensures state == StateFinished && cancelled && err == None
      ensures Settings() == old(Settings()) && calls == old(calls)
    {
      state := StateFinished;
      cancelled := true;
      err := None;
    }

    /** application.go:90-110, the start half: each slot's start task
        calls `Start` unless the context is already done. */
    method DispatchStarts(env: RunEnv) returns (starts: seq<Option<Error>>)
      requires Sized(env, |servers|)
      modifies this`calls
      ensures calls == old(calls) + StartCalls(servers, env.doneAtStart, |servers|)
      ensures |starts| == |servers|
      ensures forall j :: 0 <= j < |servers| ==> starts[j] == StartTaskResult(env.doneAtStart[j], env.startReplies[j])
      ensures forall j :: 0 <= j < |servers| ==> starts[j] == TaskResult(env, |servers|, 2 * j + 1)
    {
      starts := [];
      var i := 0;
      while i < |servers|
        invariant 0 <= i <= |servers|
        invariant calls == old(calls) + StartCalls(servers, env.doneAtStart, i)
        invariant |starts| == i
        invariant forall j :: 0 <= j < i ==> starts[j] == StartTaskResult(env.doneAtStart[j], env.startReplies[j])
      {
        if env.doneAtStart[i] {
          starts := starts + [None];
        } else {
          calls := calls + [StartCall(i, servers[i])];
          starts := starts + [env.startReplies[i]];
        }
        i := i + 1;
      }
      StartTasksAgree(env, |servers|, starts);
    }

    /** application.go:92-97, the stop half: once the context is done,
        each slot's stop task calls `Stop` with the stop timeout. */
    method StopAll(env: RunEnv) returns (stops: seq<Option<Error>>)
      requires Sized(env, |servers|)
      modifies this`calls
      ensures calls == old(calls) + StopCalls(servers, stopTimeout, |servers|)
      ensures stops == env.stopReplies
      ensures forall j :: 0 <= j < |servers| ==> stops[j] == TaskResult(env, |servers|, 2 * j)
    {
      stops := [];
      var i := 0;
      while i < |servers|
        invariant 0 <= i <= |servers|
        invariant calls == old(calls) + StopCalls(servers, stopTimeout, i)
        invariant stops == env.stopReplies[..i]
      {
        calls := calls + [StopCall(i, servers[i], stopTimeout)];
        stops := stops + [env.stopReplies[i]];
        i := i + 1;
      }
      StopTasksAgree(env, |servers|);
    }

    /** application.go:75-129, one completed run in environment `env`.
        A run that is not admitted by the compare-and-swap from Idle
        returns its rejection and touches nothing. An admitted run
        dispatches every slot's start task, lets the signal task act,
        stops every slot once the context is done, meets any later `Stop`,
        and returns the filtered first error in completion order. */
    method Run(env: RunEnv) returns (err: Option<Error>)
      requires WellFormed(env, |servers|, ctx)
      modifies this
      ensures Settings() == old(Settings())
      ensures Status() == AppTrace(old(Status()), if old(state) == StateIdle then RunOps(env) else [RunOp]).view
      ensures old(state) != StateIdle ==> calls == old(calls) && err == StepApp(old(Status()), RunOp).err
      ensures old(state) == StateRunning ==> err == Some(ApplicationRunning)
      ensures old(state) == StateFinished ==> err == Some(ApplicationFinished)
      ensures old(state) !in {StateIdle, StateRunning, StateFinished} ==> err == Some(BadApplication)
      ensures old(state) == StateIdle ==>
        && calls == old(calls) + StartCalls(servers, env.doneAtStart, |servers|) + StopCalls(servers, stopTimeout, |servers|)
        && err == RunResult(env, |servers|)
        && state == (if ViaStop(env.trigger) || env.lateStop then StateFinished else StateRunning)
      ensures old(Valid()) ==> Valid()
    {
      if state != StateIdle {
        var observed := state;
        if observed == StateRunning {
          return Some(ApplicationRunning);
        } else if observed == StateFinished {
          return Some(ApplicationFinished);
        } else {
          return Some(BadApplication);
        }
      }
      state := StateRunning;
      var starts := DispatchStarts(env);
      // The signal task, or another goroutine, may shut down through Stop.
      if ViaStop(env.trigger) {
        var _ := Stop();
      }
      var stops := StopAll(env);
      // Stop may also be called after the first trigger, before Run returns.
      if env.lateStop {
        var _ := Stop();
      }
      RunOpsOutcome(old(cancelled), env);
      err := Collect(env, |servers|, starts, stops);
    }
  }
}
