/** The JavaScript values the router handles: argument lists of its variadic
    operations, listener arguments and payloads. */
module Values {

  datatype Option<T> = None | Some(value: T)

  /** A listener function. `Noop` is the module-private empty function that
      the subscribe operations register when the caller gives no callback;
      `Callback(id)` is a caller-supplied function, identified by `id`. */
  datatype Listener = Noop | Callback(id: nat)

  /** A JavaScript value as far as the router can tell them apart: a string,
      a function, or anything else (numbers, buffers, decoded JSON, ...).
      `Fn` is a value whose `Object.prototype.toString` tag is
      `[object Function]`, the test `_sub` and `_unsub` use. `Other` never
      stands for anything callable: async and generator functions, which
      Node's `on` accepts but that tag test rejects, are outside the model. */
  datatype Value = Str(s: string) | Fn(f: Listener) | Other(id: nat)
}
