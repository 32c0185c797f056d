/** Cancellation of a Go `context.Context`, seen only through `ctx.Err()`. */
module GoContext {
  import WrapErrors

  /**
   * What `ctx.Err()` returns once the context is done. Whether it reads
   * "context canceled" or "context deadline exceeded" is not modelled.
   */
  const Done: WrapErrors.Error := WrapErrors.Plain("context deadline exceeded")
}
