/** The glob-dispatching event emitter. `Emit` does not call listeners: it
    queues one deferred task per key registered at that moment, and each task,
    when it runs, tests the event name against its key and, on a match, calls
    the listeners that key has at that later time. The host's next-tick queue
    is the explicit FIFO `queue`; `RunNextTask` runs its head. Listener calls
    are recorded in `invoked`, in the order they happen. */
module Gevents {
  import opened Values
  import opened Glob
  import Registry

  /** A deferred task queued by `Emit`. */
  datatype Task = Task(event: string, pattern: string, args: seq<Value>)

  /** One call of a listener, with the arguments it received. */
  datatype Invocation = Invocation(listener: Listener, args: seq<Value>)

  /** The tasks `Emit(event, args)` queues for the keys `keys`, one per key, in key order. */
  function Tasks(event: string, keys: seq<string>, args: seq<Value>): (tasks: seq<Task>)
    ensures |tasks| == |keys|
  {
    seq(|keys|, i requires 0 <= i < |keys| => Task(event, keys[i], args))
  }

  lemma TasksOfOneKey(event: string, key: string, args: seq<Value>)
    ensures Tasks(event, [key], args) == [Task(event, key, args)]
  {
  }

  /** One call per listener of `ls`, in order, each receiving `args`. */
  function Calls(ls: seq<Listener>, args: seq<Value>): (calls: seq<Invocation>)
    ensures |calls| == |ls|
  {
    seq(|ls|, i requires 0 <= i < |ls| => Invocation(ls[i], args))
  }

  /** The calls task `t` makes when it runs against registry `r`: the
      listeners registered under its pattern, in registration order, each
      given the emitted arguments (neither the event name nor the pattern is
      prepended) when the event name matches the pattern, and none otherwise. */
  function Dispatch(t: Task, r: Registry.Registry): (calls: seq<Invocation>)
    ensures calls != [] ==> GlobMatch(t.event, t.pattern)
    ensures GlobMatch(t.event, t.pattern) ==> |calls| == |Registry.Listeners(r, t.pattern)|
    ensures forall i :: 0 <= i < |calls| ==>
      calls[i].listener == Registry.Listeners(r, t.pattern)[i] && calls[i].args == t.args
  {
    if GlobMatch(t.event, t.pattern) then Calls(Registry.Listeners(r, t.pattern), t.args) else []
  }

  /** The listener lookup happens when the task runs: a key whose listeners
      were all removed before its task runs invokes nothing. */
  lemma DispatchAfterRemoveAll(t: Task, r: Registry.Registry)
    requires Registry.Valid(r)
    ensures Dispatch(t, Registry.RemoveAllListeners(r, t.pattern)) == []
  {
  }

  /** ... and a listener added to the key before its task runs is invoked, last. */
  lemma DispatchSeesLaterOn(t: Task, r: Registry.Registry, l: Listener)
    requires Registry.Valid(r) && GlobMatch(t.event, t.pattern)
    ensures Dispatch(t, Registry.On(r, t.pattern, l)) == Dispatch(t, r) + [Invocation(l, t.args)]
  {
    var ls := Registry.Listeners(r, t.pattern);
    assert Calls(ls + [l], t.args) == Calls(ls, t.args) + [Invocation(l, t.args)];
  }

  /** Changes to other keys do not affect what a task invokes. */
  lemma DispatchIgnoresOtherKeys(t: Task, r: Registry.Registry, key: string, l: Listener)
    requires Registry.Valid(r) && key != t.pattern
    ensures Dispatch(t, Registry.On(r, key, l)) == Dispatch(t, r)
    ensures Dispatch(t, Registry.RemoveListener(r, key, l)) == Dispatch(t, r)
    ensures Dispatch(t, Registry.RemoveAllListeners(r, key)) == Dispatch(t, r)
  {
  }

  class Gevent {
    var registry: Registry.Registry
    var queue: seq<Task>
    var invoked: seq<Invocation>

    ghost predicate Valid()
      reads this
    {
      Registry.Valid(registry)
    }

    constructor ()
      ensures Valid()
      ensures registry == Registry.Empty() && queue == [] && invoked == []
    {
      registry := Registry.Empty();
      queue := [];
      invoked := [];
    }

    /** The inherited `on(key, l)`. */
    method On(key: string, l: Listener)
      requires Valid()
      modifies this
      ensures Valid()
      ensures registry == Registry.On(old(registry), key, l)
      ensures queue == old(queue) && invoked == old(invoked)
    {
      registry := Registry.On(registry, key, l);
    }

    /** The inherited `removeListener(key, l)`. */
    method RemoveListener(key: string, l: Listener)
      requires Valid()
      modifies this
      ensures Valid()
      ensures registry == Registry.RemoveListener(old(registry), key, l)
      ensures queue == old(queue) && invoked == old(invoked)
    {
      registry := Registry.RemoveListener(registry, key, l);
    }

    /** The inherited `removeAllListeners(key)`. */
    method RemoveAllListeners(key: string)
      requires Valid()
      modifies this
      ensures Valid()
      ensures registry == Registry.RemoveAllListeners(old(registry), key)
      ensures queue == old(queue) && invoked == old(invoked)
    {
      registry := Registry.RemoveAllListeners(registry, key);
    }

    /** The inherited `listeners(key)`: never absent, empty exactly when the key is not registered. */
    method Listeners(key: string) returns (ls: seq<Listener>)
      requires Valid()
      ensures ls == Registry.Listeners(registry, key)
      ensures ls == [] <==> key !in registry.keys
    {
      ls := if key in registry.lists then registry.lists[key] else [];
    }

    /** `emit(event, ...args)`: queue one task per key registered now, in key
        order; call no listener and leave the registry alone; return the emitter. */
    method Emit(event: string, args: seq<Value>) returns (self: Gevent)
      requires Valid()
      modifies this
      ensures Valid() && self == this
      ensures registry == old(registry) && invoked == old(invoked)
      // The next three spell out, task by task, what the last one says
      // through `Tasks`: callers reason with the first form, the lemmas
      // about dispatch with the second.
      ensures |queue| == |old(queue)| + |registry.keys|
      ensures queue[..|old(queue)|] == old(queue)
      ensures forall i :: 0 <= i < |registry.keys| ==>
        queue[|old(queue)| + i] == Task(event, registry.keys[i], args)
      ensures queue == old(queue) + Tasks(event, registry.keys, args)
    {
      var events := registry.keys;
      var i := 0;
      while i < |events|
        invariant 0 <= i <= |events|
        invariant registry == old(registry) && invoked == old(invoked)
        invariant queue == old(queue) + Tasks(event, events[..i], args)
      {
        assert Tasks(event, events[..i + 1], args) == Tasks(event, events[..i], args) + [Task(event, events[i], args)];
        queue := queue + [Task(event, events[i], args)];
        i := i + 1;
      }
      assert events[..i] == events;
      self := this;
    }

    /** Run the task at the head of the queue, if any: when its pattern
        matches its event name, call the listeners the pattern has now. */
    method RunNextTask() returns (ran: bool)
      requires Valid()
      modifies this
      ensures Valid()
      ensures ran <==> old(queue) != []
      ensures registry == old(registry)
      ensures !ran ==> queue == old(queue) && invoked == old(invoked)
      ensures ran ==> queue == old(queue)[1..]
      ensures ran ==> invoked == old(invoked) + Dispatch(old(queue)[0], registry)
    {
      if queue == [] {
        ran := false;
      } else {
        var t := queue[0];
        queue := queue[1..];
        invoked := invoked + Dispatch(t, registry);
        ran := true;
      }
    }
  }

  /** test.js, "should keep all args for normal events", on a fresh emitter:
      a listener on a plain name receives exactly the emitted arguments, and
      only once the queued task runs. */
  method KeepsAllArgs() returns (before: seq<Invocation>, after: seq<Invocation>)
    ensures before == []
    ensures after == [Invocation(Callback(0), [Str("a"), Str("b"), Str("c")])]
  {
    var e := new Gevent();
    e.On("Gevent.bar", Callback(0));
    var _ := e.Emit("Gevent.bar", [Str("a"), Str("b"), Str("c")]);
    before := e.invoked;
    LiteralMatchesOnlyItself("Gevent.bar", "Gevent.bar");
    var _ := e.RunNextTask();
    after := e.invoked;
  }

  /** An emitter with one listener on each of two keys, added in that order. */
  method TwoKeyEmitter(k0: string, l0: Listener, k1: string, l1: Listener) returns (e: Gevent)
    requires k0 != k1
    ensures fresh(e) && e.Valid()
    ensures e.registry.keys == [k0, k1]
    ensures Registry.Listeners(e.registry, k0) == [l0] && Registry.Listeners(e.registry, k1) == [l1]
    ensures e.queue == [] && e.invoked == []
  {
    e := new Gevent();
    e.On(k0, l0);
    e.On(k1, l1);
  }

  /** Run the two tasks of a two-task queue. */
  method RunTwo(e: Gevent)
    requires e.Valid() && |e.queue| == 2
    modifies e
    ensures e.Valid() && e.registry == old(e.registry) && e.queue == []
    ensures e.invoked == old(e.invoked) + Dispatch(old(e.queue)[0], e.registry) + Dispatch(old(e.queue)[1], e.registry)
  {
    var _ := e.RunNextTask();
    var _ := e.RunNextTask();
  }

  /** A matching task whose pattern has a single listener makes one call. */
  lemma DispatchOne(t: Task, r: Registry.Registry, l: Listener)
    requires GlobMatch(t.event, t.pattern) && Registry.Listeners(r, t.pattern) == [l]
    ensures Dispatch(t, r) == [Invocation(l, t.args)]
  {
  }

  /** test.js, "should work for glob style patterns": each key gets a task;
      only the matching pattern's listener runs. */
  method GlobPattern() returns (tasks: nat, calls: seq<Invocation>)
    ensures tasks == 2
    ensures calls == [Invocation(Callback(1), [])]
  {
    var e := TwoKeyEmitter("Gevent.foo", Callback(0), "Gevent.foo.*", Callback(1));
    ghost var r := e.registry;
    var _ := e.Emit("Gevent.foo.bar", []);
    tasks := |e.queue|;
    assert e.queue == [Task("Gevent.foo.bar", "Gevent.foo", []), Task("Gevent.foo.bar", "Gevent.foo.*", [])];
    RunTwo(e);
    assert Dispatch(Task("Gevent.foo.bar", "Gevent.foo", []), r) == [] by {
      LongerNameExample();
    }
    assert Dispatch(Task("Gevent.foo.bar", "Gevent.foo.*", []), r) == [Invocation(Callback(1), [])] by {
      DottedStarExample();
      DispatchOne(Task("Gevent.foo.bar", "Gevent.foo.*", []), r, Callback(1));
    }
    calls := e.invoked;
  }

  /** test.js, "should unsubscribe normally", in the test's own order: the
      task queued by the first emit runs before the test's own next-tick
      callback, so the listener is called once; that callback then removes
      all listeners and emits again, which queues nothing and calls nothing.
      The emitter is fresh; test.js shares one emitter across its tests, so
      there the second emit still queues tasks for the other tests' keys,
      none of which match. */
  method UnsubscribeNormally() returns (first: seq<Invocation>, last: seq<Invocation>, pending: nat)
    ensures first == [Invocation(Callback(0), [])]
    ensures last == first && pending == 0
  {
    var e := new Gevent();
    e.On("Gevent.blah", Callback(0));
    var _ := e.Emit("Gevent.blah", []);
    LiteralMatchesOnlyItself("Gevent.blah", "Gevent.blah");
    var _ := e.RunNextTask();
    first := e.invoked;
    e.RemoveAllListeners("Gevent.blah");
    var _ := e.Emit("Gevent.blah", []);
    var _ := e.RunNextTask();
    last := e.invoked;
    pending := |e.queue|;
  }

  /** Listeners are looked up when a task runs: a key whose listeners are
      all removed between `emit` and its task invokes nothing, and a later
      emit finds no keys at all. */
  method UnsubscribeBeforeRun() returns (calls: seq<Invocation>, pending: nat)
    ensures calls == [] && pending == 0
  {
    var e := new Gevent();
    e.On("Gevent.blah", Callback(0));
    var _ := e.Emit("Gevent.blah", []);
    e.RemoveAllListeners("Gevent.blah");
    var _ := e.RunNextTask();
    var _ := e.Emit("Gevent.blah", []);
    calls := e.invoked;
    pending := |e.queue|;
  }

  /** The key list is captured when `emit` is called: a pattern registered
      afterwards gets no task from that emit. */
  method LateRegistration() returns (calls: seq<Invocation>)
    ensures calls == [Invocation(Callback(0), [])]
  {
    var e := new Gevent();
    e.On("a", Callback(0));
    var _ := e.Emit("a", []);
    e.On("*", Callback(1));
    LiteralMatchesOnlyItself("a", "a");
    var _ := e.RunNextTask();
    var _ := e.RunNextTask();
    calls := e.invoked;
  }
}
