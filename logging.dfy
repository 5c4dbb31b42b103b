/**
 * The injected logger capability (`ILogger`, src/types/Logger.ts): three
 * operations, `info`, `warn` and `error`. A component's calls on it are
 * recorded as a sequence of `LogCall` values, in the order they are made.
 * The payload type `M` is the component's own abstract message; the exact
 * text written is not modelled.
 */
module Logging {
  datatype LogCall<+M> = Info(msg: M) | Warn(msg: M) | Error(msg: M)
}
