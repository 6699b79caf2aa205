/** The vocabulary shared by the orchestrator and the server wrapper:
    optional values (Go's nillable `error`), the error values the
    lifecycle code produces or inspects, and `errors.Is` over
    single-cause wrapping. */
module Contract {

  /** `None` stands for Go's `nil` error. */
  datatype Option<+T> = None | Some(value: T)

  /** The error values the core distinguishes. `Canceled` and
      `DeadlineExceeded` are the context package's sentinels; the next
      three are the orchestrator's own usage errors; `Failure` is an
      opaque error produced by a component; `Wrapped` is an error that
      wraps a cause (as `fmt.Errorf` with `%w` does). */
  datatype Error =
    | Canceled
    | DeadlineExceeded
    | ApplicationRunning
    | ApplicationFinished
    | BadApplication
    | Failure(code: nat)
    | Wrapped(message: string, cause: Error)

  /** `errors.Is(e, target)`: `e` is `target` or wraps it somewhere down
      its chain of causes. */
  predicate Is(e: Error, target: Error)
  {
    e == target || (e.Wrapped? && Is(e.cause, target))
  }

  /** The causes reachable from `e` by unwrapping, `e` itself first. */
  function Chain(e: Error): (c: seq<Error>)
    ensures |c| > 0 && c[0] == e
  {
    if e.Wrapped? then [e] + Chain(e.cause) else [e]
  }

  /** `errors.Is` agrees with membership in the unwrap chain. */
  lemma {:induction false} IsInChain(e: Error, target: Error)
    ensures Is(e, target) <==> target in Chain(e)
  {
    if e.Wrapped? {
      IsInChain(e.cause, target);
    }
  }

  /** Identity of a registered component; the component itself is
      external and known only by the replies it gives. */
  type ServerId = nat

  /** Identity of a `context.Context` value handed through to a component. */
  type Ctx = nat
}
