/** Listener tables and the calls made into them.

    A listener is a host callback; the model identifies it by an opaque token.
    Invoking it is recorded as a `Call` on a log, so every property of the
    dispatch is a property of that log. */
module Events {
  import opened Common

  /** Identity of a host callback registered with `on`. */
  type Listener = nat

  /** An event-name to callback table (`this._eventListeners`). */
  type Table = map<string, Listener>

  /** The arguments a listener receives. */
  datatype Args =
    | TouchpadArgs(slot: nat, axes0: Option<real>, axes1: Option<real>)  // func(i, axes0, axes1)
    | TriggerArgs(slot: nat)                                             // func(i)
    | MouseArgs(mx: real, my: real)                                      // func(...coords)

  /** One synchronous invocation of a registered listener. */
  datatype Call = Call(listener: Listener, name: string, args: Args)

  /** `const func = table[name]; if (func) func(args)`: a call when, and only
      when, a listener is registered under `name`. */
  function Notify(table: Table, name: string, args: Args): seq<Call> {
    if name in table then [Call(table[name], name, args)] else []
  }

  /** Some call in `calls` went to a listener registered under `name`. */
  predicate Fired(calls: seq<Call>, name: string) {
    exists c :: c in calls && c.name == name
  }

  /** A dispatch reaches only the listener registered under its own name, with
      the arguments given, and some listener is reached under a name `other`
      exactly when `other` is that name and it is registered. */
  lemma NotifyReachesRegisteredOnly(table: Table, name: string, args: Args, other: string)
    ensures forall c :: c in Notify(table, name, args) ==>
              name in table && c == Call(table[name], name, args)
    ensures Fired(Notify(table, name, args), other) <==> other == name && name in table
  {
    if name in table {
      assert Notify(table, name, args)[0].name == name;
    }
  }
}
