/** `ServerWrapper` (server.go): a decorator around a component that
    remembers whether it was started, so that `Stop` reaches the inner
    component only once per `Start`. The inner component is external:
    each call on the wrapper carries the reply the inner component would
    give if called, and the calls that actually reach it are logged. */
module Wrapper {
  import opened Contract

  /** A call that reached the wrapped component. */
  datatype InnerCall = InnerStart(ctx: Ctx) | InnerStop(ctx: Ctx)

  /** A call on the wrapper, with the reply the inner component gives if
      the wrapper delegates. */
  datatype Op = StartOp(ctx: Ctx, reply: Option<Error>) | StopOp(ctx: Ctx, reply: Option<Error>)

  /** What one call does: the new `running` flag, the inner calls it
      makes, and the error it returns. */
  datatype Step = Step(running: bool, calls: seq<InnerCall>, result: Option<Error>)

  /** server.go:16-27 as a transition on the `running` flag. */
  function StepWrapper(running: bool, op: Op): (r: Step)
    ensures |r.calls| <= 1
    ensures r.running <==> op.StartOp?
    ensures op.StopOp? ==> (r.calls != [] <==> running)
    ensures r.calls == [] ==> r.result == None
    ensures r.calls != [] ==> r.result == op.reply && r.calls[0].ctx == op.ctx && (r.calls[0].InnerStop? <==> op.StopOp?)
    ensures op.StartOp? ==> r.calls == [InnerStart(op.ctx)] && r.result == op.reply
    ensures op.StopOp? && running ==> r.calls == [InnerStop(op.ctx)] && r.result == op.reply
  {
    match op
    case StartOp(ctx, reply) => Step(true, [InnerStart(ctx)], reply)
    case StopOp(ctx, reply) =>
      if !running then Step(false, [], None)
      else Step(false, [InnerStop(ctx)], reply)
  }

  /** The outcome of a sequence of calls on one wrapper. */
  datatype Outcome = Outcome(running: bool, calls: seq<InnerCall>, results: seq<Option<Error>>)

  function Trace(running: bool, ops: seq<Op>): (t: Outcome)
    ensures |t.results| == |ops|
    decreases |ops|
  {
    if ops == [] then Outcome(running, [], [])
    else
      var s := StepWrapper(running, ops[0]);
      var rest := Trace(s.running, ops[1..]);
      Outcome(rest.running, s.calls + rest.calls, [s.result] + rest.results)
  }

  function CountStarts(ops: seq<Op>): (c: nat)
  {
    if ops == [] then 0 else (if ops[0].StartOp? then 1 else 0) + CountStarts(ops[1..])
  }

  function CountInnerStops(calls: seq<InnerCall>): (c: nat)
  {
    if calls == [] then 0 else (if calls[0].InnerStop? then 1 else 0) + CountInnerStops(calls[1..])
  }

  lemma {:induction false} CountInnerStopsAppend(a: seq<InnerCall>, b: seq<InnerCall>)
    ensures CountInnerStops(a + b) == CountInnerStops(a) + CountInnerStops(b)
  {
    if a == [] {
      assert a + b == b;
    } else {
      assert (a + b)[1..] == a[1..] + b;
      CountInnerStopsAppend(a[1..], b);
    }
  }

  /** Over any sequence of calls, the inner component is stopped at most
      once per `Start` (plus once if the wrapper was running to begin
      with); a wrapper still running at the end has one `Start` not yet
      matched by an inner `Stop`. */
  lemma {:induction false} AtMostOneInnerStopPerStart(running: bool, ops: seq<Op>)
    ensures var t := Trace(running, ops);
      CountInnerStops(t.calls) + (if t.running then 1 else 0) <= CountStarts(ops) + (if running then 1 else 0)
    decreases |ops|
  {
    if ops != [] {
      var s := StepWrapper(running, ops[0]);
      AtMostOneInnerStopPerStart(s.running, ops[1..]);
      CountInnerStopsAppend(s.calls, Trace(s.running, ops[1..]).calls);
    }
  }

  /** In any sequence of calls, a `Stop` that directly follows a `Stop`
      returns nil and does not reach the inner component. */
  lemma {:induction false} SecondStopIsInert(running: bool, ops: seq<Op>, k: nat)
    requires 0 < k < |ops| && ops[k - 1].StopOp? && ops[k].StopOp?
    ensures Trace(running, ops).results[k] == None
    ensures Trace(running, ops[..k]).calls == Trace(running, ops[..k + 1]).calls
    decreases k
  {
    var s := StepWrapper(running, ops[0]);
    if k == 1 {
      assert ops[1..][..1] == [ops[1]];
      assert ops[..1][1..] == [];
      assert ops[..2][1..] == [ops[1]];
    } else {
      assert ops[1..][..k - 1] == ops[..k][1..];
      assert ops[1..][..k] == ops[..k + 1][1..];
      SecondStopIsInert(s.running, ops[1..], k - 1);
    }
  }

  /** The decorator of server.go:11-14. `server` is a constant: neither
      method can replace the wrapped component. */
  class ServerWrapper {
    const server: ServerId
    var running: bool
    /** The calls that reached the wrapped component, oldest first. */
    ghost var calls: seq<InnerCall>

    constructor (server: ServerId)
      ensures this.server == server && !running && calls == []
    {
      this.server := server;
      running := false;
      calls := [];
    }

    /** server.go:16-19: mark running, then delegate and pass the inner
        reply through. */
    method Start(ctx: Ctx, reply: Option<Error>) returns (err: Option<Error>)
      modifies this
      ensures var s := StepWrapper(old(running), StartOp(ctx, reply));
        running == s.running && calls == old(calls) + s.calls && err == s.result
      ensures running && err == reply && calls == old(calls) + [InnerStart(ctx)]
    {
      running := true;
      calls := calls + [InnerStart(ctx)];
      err := reply;
    }

    /** server.go:21-27: a wrapper that is not running returns nil without
        delegating; a running one clears the flag first, then delegates
        once and passes the inner reply through. */
    method Stop(ctx: Ctx, reply: Option<Error>) returns (err: Option<Error>)
      modifies this
      ensures var s := StepWrapper(old(running), StopOp(ctx, reply));
        running == s.running && calls == old(calls) + s.calls && err == s.result
      ensures !running
      ensures !old(running) ==> err == None && calls == old(calls)
      ensures old(running) ==> err == reply && calls == old(calls) + [InnerStop(ctx)]
    {
      if !running {
        return None;
      }
      running := false;
      calls := calls + [InnerStop(ctx)];
      err := reply;
    }
  }
}
