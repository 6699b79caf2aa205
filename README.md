# Lifecycle orchestrator of `bootstrap`, modelled in Dafny

`bootstrap` runs a fixed set of long-lived components ("servers") for one
process lifetime. An `Application` is built from functional options. Its
`Run` starts every server whose context is not yet done, waits until
something cancels the run, and stops every server with a bounded timeout.
It returns the first error any task returns, unless that error is a
cancellation.
`Stop` ends the run from outside. A `ServerWrapper` decorates a server so
that its inner `Stop` runs only once per `Start`.

This project models the sequential bookkeeping of that code and proves
properties of it:

- `contract.dfy`, module `Contract`: the error values and `errors.Is` over
  wrapped errors. A nil error is `None`.
- `wrapper.dfy`, module `Wrapper`: `ServerWrapper` as a class with a
  `running` flag, and the same transition as a pure function
  `StepWrapper`, with traces over any sequence of calls.
- `bootstrap.dfy`, module `Bootstrap`:
  - the options as a datatype, and the left-to-right fold that `New` runs;
  - the run-state machine (Idle=0, Running=1, Finished=2, as `int32`) as a
    class (`Application`) and as a pure trace `AppTrace`;
  - one completed `Run`, described by the environment it meets (`RunEnv`).

A `RunEnv` gives, for each server slot (its position in the registration
list):

- whether the context was already done when the slot's start task checked it;
- what the server's `Start` and `Stop` return if called.

It also gives:

- what first cancelled the run (a signal, an outside `Stop`, the parent
  context, or a failing start task);
- whether `Stop` is also called after that and before `Run` returns
  (`lateStop`);
- the order in which the run's tasks complete. The failure group (`errgroup`) keeps the first
non-nil result in completion order (`FirstError`). The result filter
turns that result, if nil or `context.Canceled`, into nil (`Filter`).

Servers are external. They appear only through the replies they give, and
every call that reaches one is recorded in a ghost call log (`calls`).
Durations are `int64` nanoseconds, so the default stop timeout is
`10 * Second` = 10_000_000_000.

Three behaviours of the code worth noting:

- The start task does not always call `Start`. If the context is already
  done it returns nil without calling it (application.go:103-105).
- Only `Stop` stores Finished (application.go:136). A run that ends because
  a start task failed, or because the parent context was cancelled, leaves
  the state Running, unless `Stop` is also called before `Run` returns.
  A later `Run` then returns `ErrApplicationRunning`. `Application.Run`
  states this in its postcondition.
- A cancellation that completes first hides every later error. The group
  keeps the first non-nil result, and the filter turns `context.Canceled`
  into nil. When a server's `Start` returns `context.Canceled` (for example
  by returning `ctx.Err()`) before a failing `Stop` completes, that
  failure is not reported. A `Start` that returns nil on shutdown does not
  hide it. `CancellationHidesLaterErrors` and `StopFailureHidden` state
  this.

## Model

| member | source | states |
|---|---|---|
| `Contract.IsInChain` | application.go:125 | `errors.Is(e, target)` holds exactly when `target` is on the chain of causes reached by unwrapping `e`. |
| `Wrapper.ServerWrapper.constructor` | server.go:11-14 | A new wrapper holds the given server, is not running, and has made no inner call. |
| `Wrapper.ServerWrapper.Start` | server.go:16-19 | `running` becomes true whatever the inner reply is. Exactly one inner `Start` is made with the same context. The inner error is returned verbatim. The new state is `StepWrapper` of the old one. |
| `Wrapper.ServerWrapper.Stop` | server.go:21-27 | If not running: returns nil and makes no inner call. If running: clears `running`, makes one inner `Stop` and returns its error verbatim. The wrapped `server` is a constant that neither method can change. |
| `Wrapper.AtMostOneInnerStopPerStart` | server.go:16-27 | Over any sequence of calls, the number of inner `Stop` calls is at most the number of `Start` calls (plus one if the wrapper started out running). A wrapper still running at the end has one `Start` left unmatched. |
| `Wrapper.SecondStopIsInert` | server.go:21-27 | In any sequence of calls, a `Stop` that directly follows a `Stop` returns nil and reaches no inner server. |
| `Wrapper.StepWrapper` | server.go:16-27 | One call on the wrapper makes at most one inner call. `running` is true afterwards exactly for `Start`. A `Start` always makes one inner `Start` on its context and returns the inner reply. A `Stop` delegates exactly when the wrapper was running, then making one inner `Stop` on its context and returning its reply; otherwise it returns nil. |
| `Bootstrap.Apply` | application.go:18-36 | One option changes only its own setting: `WithContext` the context, `WithServers` appends its arguments, `WithStopTimeout` the timeout. A nil option changes nothing. |
| `Bootstrap.Admit` | application.go:76-84 | The whole guard of `Run` by the state it finds. It is nil, so the compare-and-swap from Idle succeeds, exactly for Idle. Otherwise the rejection names the observed state. Each rejection holds if and only if its own case holds: `ErrApplicationRunning` for Running, `ErrApplicationFinished` for Finished, `ErrBadApplication` for any other value. |
| `Bootstrap.StepApp` | application.go:76-85 | `Stop` from any view gives Finished and cancelled, with a nil reply. `Run` is admitted exactly from Idle, and then the state becomes Running. A rejected `Run` leaves the view unchanged and replies with `Admit`. |
| `Bootstrap.StartTaskResult` | application.go:103-108 | A start task whose context is already done returns nil. Otherwise it returns the server's `Start` reply. |
| `Bootstrap.TaskResult` | application.go:92-124 | A non-nil task result is a reply of a call that was made: the slot's `Stop` reply for a stop task, or the slot's `Start` reply for a start task whose context was not done. Conversely, every reply of a call that was made is that task's result: a stop task returns its `Stop` reply, and a start task whose context was not done returns its `Start` reply. The signal task always returns nil. |
| `Bootstrap.SlotTasks` | application.go:92-108 | Task `2j` is slot `j`'s stop task and returns its `Stop` reply. Task `2j+1` is its start task and returns the start-task rule's result. |
| `Bootstrap.RunOps` | application.go:76-136 | An admitted run performs the guard first and then only `Stop` operations. It performs at least one `Stop` exactly when the first trigger goes through `Stop` or `Stop` is also called later. |
| `Bootstrap.RunOpsOutcome` | application.go:76-136 | From Idle, a run ends Finished and cancelled exactly when `Stop` was called during it, and Running with the cancellation flag unchanged otherwise. |
| `Bootstrap.Filter` | application.go:125-128 | The result filter returns either nil or the group error unchanged. It returns non-nil exactly when the group error is non-nil and not `context.Canceled`. |
| `Bootstrap.Application.New` | application.go:61-73 | The settings are the defaults (background context, no servers, 10 s) with every option applied left to right and nil options skipped. The state is Idle, nothing is cancelled, and no server has been called. |
| `Bootstrap.Application.ApplyOption` | application.go:16-36 | Calling one non-nil option changes the context, the server list or the timeout as the option says, and nothing else. |
| `Bootstrap.NilOptionSkipped` | application.go:66-70 | A nil option anywhere in the list has no effect on the result. |
| `Bootstrap.ServersAppended` | application.go:24-30 | The server list is the earlier list followed by every `WithServers` argument list, in option order. An empty `WithServers` adds nothing. |
| `Bootstrap.LastStopTimeoutWins` | application.go:32-36 | The stop timeout is the argument of the last `WithStopTimeout`. |
| `Bootstrap.StopTimeoutKept` | application.go:64 | Without any `WithStopTimeout` the timeout keeps its earlier value, which for `New` is 10 s. |
| `Bootstrap.LastContextWins` | application.go:18-22 | The parent context is the argument of the last `WithContext`. |
| `Bootstrap.ContextKept` | application.go:63 | Without any `WithContext` the parent context keeps its earlier value, which for `New` is the background context. |
| `Bootstrap.Application.State` | application.go:131-133 | Returns the current run state. |
| `Bootstrap.Application.Stop` | application.go:135-142 | From any state: stores Finished, cancels the root context and returns nil. Settings and call log are unchanged. The new state is the `StopOp` step of the state machine. |
| `Bootstrap.Application.Run` | application.go:75-129 | From Running it returns `ErrApplicationRunning`, from Finished `ErrApplicationFinished`, from any other non-Idle value `ErrBadApplication`. Each rejection leaves state and call log unchanged. From Idle, the call log gains the start-task calls and one stop call per slot with the stop timeout, listed in that grouping, not in real-time order. The result is `RunResult`. The state ends Finished if `Stop` was called during the run (as the first trigger, or later before `Run` returns), and Running otherwise. Settings are never changed, and `Valid` is preserved. |
| `Bootstrap.Application.DispatchStarts` | application.go:99-109 | Each slot's start task calls `Start` exactly when the context is not yet done. Its result is nil when the context is done, and the server's reply otherwise, which is that task's `TaskResult`. |
| `Bootstrap.Application.StopAll` | application.go:90-97 | After cancellation each slot's stop task calls `Stop` once with the configured timeout and returns the server's reply, which is that task's `TaskResult`. |
| `Bootstrap.StartCalledIffNotDone` | application.go:101-109 | A `Start` call for a slot is in the log exactly when that slot's context was not done at its start task, and it names the slot's server. |
| `Bootstrap.StartCalledOnce` | application.go:90-110 | The `Start` calls are in strictly increasing slot order, so no server slot is started twice. |
| `Bootstrap.StoppedExactlyOnce` | application.go:92-97 | The stop log has one entry per registered slot, in slot order. Each entry names the slot's server and carries the configured stop timeout. |
| `Bootstrap.FirstError` | application.go:125 | The group error is nil exactly when every task result is nil. Otherwise it is a task result all of whose predecessors in completion order are nil. |
| `Bootstrap.RunResultIsTaskError` | application.go:125-128 | `Run` returns nil or, verbatim, an error that a `Start` that was actually called or a `Stop` returned. That error is never one that `errors.Is` matches to `context.Canceled`. |
| `Bootstrap.CleanShutdown` | application.go:125-128 | When every task returns nil or a cancellation error, `Run` returns nil. |
| `Bootstrap.SoleErrorReported` | application.go:87-128 | When one task returns a non-nil error that is not a cancellation and every other task returns nil, `Run` returns that error in every completion order. |
| `Bootstrap.CancellationHidesLaterErrors` | application.go:125-128 | When a cancellation error completes before every other non-nil result, `Run` returns nil, whatever errors the tasks completing later return. |
| `Bootstrap.StopFailureHidden` | application.go:92-128 | With one server whose `Start` returns `context.Canceled` first and whose `Stop` then fails, the stop task's result is the failure and `Run` still returns nil. |
| `Bootstrap.Collect` | application.go:125-128 | Given the results the slots' tasks returned, it returns `RunResult`: the filtered first error in completion order. |
| `Bootstrap.ReturnedAreCompletions` | application.go:90-125 | The results the stop and start tasks returned, with nil for the signal task, picked in completion order, are exactly the run's `Completions`. |
| `Bootstrap.StartFailureReported` | application.go:101-109 | With one server whose `Start` fails with a non-cancellation error and whose `Stop` succeeds, `Run` returns that error, whatever the completion order. |
| `Bootstrap.FinishedIsAbsorbing` | application.go:76-85 | From Finished, no sequence of `Run` and `Stop` leaves Finished, and every `Run` is rejected with `ErrApplicationFinished`. |
| `Bootstrap.StopThenRunRejected` | application.go:135-136 | After `Stop` from any state, including Idle before any `Run`, the state is Finished for good and every later `Run` returns `ErrApplicationFinished`. |
| `Bootstrap.NeverIdleAgain` | application.go:76 | Once the state has left Idle it never returns to Idle, and no later `Run` is admitted. |
| `Bootstrap.RunAdmittedAtMostOnce` | application.go:76 | In any sequence of operations no two `Run` calls are both admitted. None is admitted if the state did not start out Idle. |
| `Bootstrap.StopIdempotent` | application.go:135-142 | Two `Stop` calls in a row leave the same state as one, whatever comes before or after. |
| `Bootstrap.BadApplicationUnreachable` | application.go:82-83 | From a valid state every reached state is valid: one of the three, and cancelled only when Finished. So the catch-all `ErrBadApplication` is never returned. |

## Left out

- Goroutines, the `sync.WaitGroup` start barrier and the atomic
  primitives (application.go:87-124). The compare-and-swap is one
  sequential step. The interleaving of tasks appears only as a
  completion order in `RunEnv`, plus the per-slot "context already done"
  flags.
- `errgroup` is a library whose source is not part of this model. It is
  modelled only by its first-error rule. The library cancels its context
  on the first error. That appears as the `TaskFailed` trigger, which must
  come from a start task that ran and failed.
- The completion order in `RunEnv` is any ordering of the tasks. Orders
  that causality rules out (for example, a stop task finishing before the
  error that cancelled the run) are allowed too, so the result lemmas hold
  for more orders than can happen.
- A run that never ends, because nothing ever cancels it or a server
  ignores its context, is not modelled. `Run` describes completed runs.
- OS signal handling (application.go:114-122). A delivered signal is the
  `Signalled` trigger, which calls `Stop`. The signal set is fixed in the
  code and has no option.
- `context.WithTimeout` and `context.WithoutCancel` (application.go:94):
  timer and library behaviour. A stop call records only the stop timeout
  it is given. That its context is detached from the cancelled root is
  not represented.
- The `cancel != nil` guard in `Stop` (application.go:138). The root
  context's cancel function is set only at the end of `New`
  (application.go:71). Two cases reach `Stop` before it exists: a
  zero-value `Application{}`, and a caller-written option that calls
  `app.Stop()` while `New` runs. In the second case `New` returns an
  application already in Finished. Neither case is modelled.
- Only the nil option and the package's three option constructors are
  modelled. `Option` is an open function type, so a caller can write
  options that do anything to the application; those are not modelled.
- Panics are not modelled. `WithContext(nil)` makes `New` panic in
  `context.WithCancel` (application.go:71). A nil `Server` given to
  `WithServers` makes the stop and start tasks panic (application.go:96,
  application.go:107).
- The call log of `Run` lists all `Start` calls before all `Stop` calls,
  whatever the real-time order. The source does not fix that order. The
  start task's check of the context (application.go:103-107) is not atomic
  with its `Start` call, and the stop task (application.go:92-96) waits
  only for cancellation. So a slot can be stopped before it is started.
  The log lemmas state which calls are made and how often, not when.
- `ServerWrapper.running` is a plain `bool`, and `Wrapper.Trace` runs the
  wrapper's calls one after another. Under `Run`, a wrapper's blocking
  `Start` and its `Stop` run in different goroutines at once, which the
  model does not cover. In particular, when a slot is stopped before it is
  started, the wrapper's `Stop` finds `running` false and does nothing.
  Its later `Start` then starts the inner server, which is never stopped.
- `errors.Is` is modelled for single-cause wrapping only. Errors that
  join several causes, and custom `Is` methods, are not modelled.
- Values carried by contexts, and the error message texts.
- http/server.go, http/response.go, example/main.go and service.go are not
  part of this model. They are network plumbing, a JSON helper, a demo
  program and an interface identical to `Server`.
