/**
 * The error normalisers of src/utils/error.ts: each turns a thrown value
 * into an `Error` for the caller to raise; the logging variant also reports
 * it through the injected logger.
 */
module ErrorUtils {
  import opened Logging

  /** A thrown value that is not an `Error`. */
  datatype Value =
    | Undefined
      /** A value whose string conversion succeeds, with that conversion (a string is its own). */
    | Converted(text: string)
      /** A value whose string conversion throws a TypeError: a Symbol, an object without
          `toString`, or one whose `toString` throws. */
    | Unconvertible

  /** An `Error` object. */
  datatype ErrorObject =
      /** An error that already existed, identified by `ref`; `dumpable` is false when
          `JSON.stringify` throws on it (a circular or BigInt-valued enumerable property). */
    | Existing(ref: nat, message: string, dumpable: bool)
      /** The `new Error(value)` built by a normaliser, with the message it received. */
    | Wrapped(message: string)
  {
    /** Whether `JSON.stringify` of this error returns. A fresh `Error` has no enumerable property. */
    predicate Dumpable() {
      match this
      case Existing(_, _, d) => d
      case Wrapped(_) => true
    }
  }

  /** The argument of a prethrow function: `msg instanceof Error` or not. */
  datatype PrethrowArg = IsError(error: ErrorObject) | NotError(value: Value)

  /** How a call of a prethrow function ends. */
  datatype Outcome =
    | Normalised(error: ErrorObject)  // the error is returned for the caller to raise
    | ToStringFailed                  // `new Error(msg)` threw a TypeError
    | StringifyFailed                 // `JSON.stringify(msg, null, 2)` threw a TypeError

  /** A line written through `logger.error`. */
  datatype ErrorLine =
    | MessageLine(text: string)     // the error's message
    | JsonDump(error: ErrorObject)  // the error's JSON dump (its formatting is not modelled)

  /**
   * `new Error(msg)` for a value that is not an `Error`: the message is the
   * value's string conversion, empty for `undefined`; the conversion may throw.
   */
  function NewError(v: Value): (r: Outcome)
    ensures r.Normalised? <==> !v.Unconvertible?
    ensures r.Normalised? ==> r.error.Wrapped? && r.error.Dumpable()
    ensures v.Undefined? ==> r == Normalised(Wrapped(""))
    ensures v.Converted? ==> r == Normalised(Wrapped(v.text))
    ensures v.Unconvertible? ==> r == ToStringFailed
  {
    match v
    case Undefined => Normalised(Wrapped(""))
    case Converted(text) => Normalised(Wrapped(text))
    case Unconvertible => ToStringFailed
  }

  /** `defaultPrethrow`: an `Error` is returned as is, anything else is wrapped. Logs nothing. */
  function DefaultPrethrow(msg: PrethrowArg): (r: Outcome)
    ensures msg.IsError? ==> r == Normalised(msg.error)
    ensures msg.NotError? ==> r == NewError(msg.value)
    ensures !r.StringifyFailed?
  {
    match msg
    case IsError(err) => Normalised(err)
    case NotError(v) => NewError(v)
  }

  /** `defaultPrethrow` is idempotent on its result. */
  lemma DefaultPrethrowIdempotent(msg: PrethrowArg)
    ensures var r := DefaultPrethrow(msg);
      r.Normalised? ==> DefaultPrethrow(IsError(r.error)) == r
  {
  }

  /**
   * `prethrowWithLogger`: the same error as `defaultPrethrow`, after exactly
   * two `logger.error` calls, the message first and the JSON dump second.
   * It returns normally, leaving the raise to the caller, unless building the
   * error (no logging then) or dumping it (after the message line) throws.
   */
  method PrethrowWithLogger(msg: PrethrowArg) returns (r: Outcome, log: seq<LogCall<ErrorLine>>)
    ensures DefaultPrethrow(msg).ToStringFailed? ==> r == ToStringFailed && log == []
    ensures DefaultPrethrow(msg).Normalised? ==>
      var e := DefaultPrethrow(msg).error;
      if e.Dumpable()
      then r == Normalised(e) && log == [Error(MessageLine(e.message)), Error(JsonDump(e))]
      else r == StringifyFailed && log == [Error(MessageLine(e.message))]
    ensures r.Normalised? ==> r == DefaultPrethrow(msg)
  {
    var m := msg;
    log := [];
    if !m.IsError? {
      var made := NewError(m.value);
      if !made.Normalised? {
        return ToStringFailed, log;
      }
      m := IsError(made.error);
    }
    log := log + [Error(MessageLine(m.error.message))];
    if !m.error.Dumpable() {
      return StringifyFailed, log;
    }
    log := log + [Error(JsonDump(m.error))];
    r := Normalised(m.error);
  }
}
