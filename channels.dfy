/** The channel router: binds a glob-dispatching emitter to a publish/subscribe
    transport. Caller operations register listeners in the emitter and issue
    transport commands, which are recorded in an append-only log; inbound
    `message`/`pmessage` notifications and the transport's `ready` signal are
    method calls made by the environment. */
module Router {
  import opened Values
  import opened Glob
  import Registry
  import opened Gevents

  datatype SubCommand = Subscribe | PSubscribe
  datatype UnsubCommand = Unsubscribe | PUnsubscribe

  /** A command issued to the transport. */
  datatype Command =
    | Sub(sub: SubCommand, channels: seq<string>)
    | Unsub(unsub: UnsubCommand, channels: seq<string>)
    | Publish(args: seq<Value>)

  /** How an operation returned: normally, or by throwing. */
  datatype Status = Done | NotAFunction | ParseError

  // ---------------------------------------------------------------------
  // Variadic arguments: channels, then an optional trailing callback

  /** Every argument but the last is a channel name. */
  predicate NamesThenAny(args: seq<Value>) {
    forall i :: 0 <= i < |args| - 1 ==> args[i].Str?
  }

  /** Channel names, optionally followed by one callback. */
  predicate NamesThenCallback(args: seq<Value>) {
    NamesThenAny(args) && (args != [] ==> args[|args| - 1].Str? || args[|args| - 1].Fn?)
  }

  predicate AllNames(args: seq<Value>) {
    forall i :: 0 <= i < |args| ==> args[i].Str?
  }

  function Names(args: seq<Value>): (names: seq<string>)
    requires AllNames(args)
    ensures |names| == |args|
    ensures forall i :: 0 <= i < |args| ==> args[i] == Str(names[i])
  {
    if args == [] then [] else [args[0].s] + Names(args[1..])
  }

  datatype Split = Split(channels: seq<string>, callback: Option<Listener>)

  /** Take the last argument off as the callback when it is a function;
      otherwise every argument is a channel. */
  function SplitCallback(args: seq<Value>): (split: Split)
    requires NamesThenCallback(args)
    ensures split.callback.Some? <==> args != [] && args[|args| - 1].Fn?
    ensures split.callback.Some? ==> args[|args| - 1] == Fn(split.callback.value)
    ensures |split.channels| == |args| - (if split.callback.Some? then 1 else 0)
    ensures forall i :: 0 <= i < |split.channels| ==> args[i] == Str(split.channels[i])
  {
    if args != [] && args[|args| - 1].Fn? then
      Split(Names(args[..|args| - 1]), Some(args[|args| - 1].f))
    else
      Split(Names(args), None)
  }

  /** The argument list a split came from. */
  function Join(split: Split): (args: seq<Value>)
    ensures |args| == |split.channels| + if split.callback.Some? then 1 else 0
  {
    seq(|split.channels|, i requires 0 <= i < |split.channels| => Str(split.channels[i]))
      + (if split.callback.Some? then [Fn(split.callback.value)] else [])
  }

  /** Splitting loses nothing: joining the parts gives the arguments back. */
  lemma JoinSplitCallback(args: seq<Value>)
    requires NamesThenCallback(args)
    ensures Join(SplitCallback(args)) == args
  {
    var split := SplitCallback(args);
    if split.callback.Some? {
      assert args == args[..|args| - 1] + [args[|args| - 1]];
    }
  }

  /** ... and every channel list with an optional callback splits back into itself. */
  lemma SplitCallbackJoin(split: Split)
    ensures NamesThenCallback(Join(split))
    ensures SplitCallback(Join(split)) == split
  {
    var args := Join(split);
    var n := |split.channels|;
    var r := SplitCallback(args);
    assert r.callback == split.callback;
    assert |r.channels| == n;
    forall i | 0 <= i < n ensures r.channels[i] == split.channels[i] {
      assert args[i] == Str(split.channels[i]);
    }
  }

  // ---------------------------------------------------------------------
  // Registration

  /** The registry after `on(name, l)` for each name of `names`, in order. */
  function OnAll(r: Registry.Registry, names: seq<string>, l: Listener): (r': Registry.Registry)
    requires Registry.Valid(r)
    ensures Registry.Valid(r')
  {
    if names == [] then r
    else Registry.On(OnAll(r, names[..|names| - 1], l), names[|names| - 1], l)
  }

  lemma OnAllStep(r: Registry.Registry, names: seq<string>, i: nat, l: Listener)
    requires Registry.Valid(r) && i < |names|
    ensures OnAll(r, names[..i + 1], l) == Registry.On(OnAll(r, names[..i], l), names[i], l)
  {
    assert names[..i + 1][..i] == names[..i];
  }

  function Repeat(l: Listener, n: nat): (s: seq<Listener>)
    ensures |s| == n && forall i :: 0 <= i < n ==> s[i] == l
  {
    if n == 0 then [] else Repeat(l, n - 1) + [l]
  }

  /** How many times `key` occurs in `names`. */
  function Count(names: seq<string>, key: string): (n: nat)
    ensures n <= |names|
  {
    if names == [] then 0
    else Count(names[..|names| - 1], key) + (if names[|names| - 1] == key then 1 else 0)
  }

  /** Registering `l` under `names` appends one copy of `l` to the end of a
      key's listeners per occurrence of the key in `names`; a key that is not
      named keeps its listeners. */
  lemma {:induction false} OnAllListeners(r: Registry.Registry, names: seq<string>, l: Listener, key: string)
    requires Registry.Valid(r)
    ensures Registry.Listeners(OnAll(r, names, l), key)
         == Registry.Listeners(r, key) + Repeat(l, Count(names, key))
  {
    if names != [] {
      var init, last := names[..|names| - 1], names[|names| - 1];
      OnAllListeners(r, init, l, key);
      OnListenersRepeat(OnAll(r, init, l), last, l, key, Registry.Listeners(r, key), Count(init, key));
    }
  }

  lemma OnListenersRepeat(prev: Registry.Registry, name: string, l: Listener, key: string, before: seq<Listener>, n: nat)
    requires Registry.Valid(prev) && Registry.Listeners(prev, key) == before + Repeat(l, n)
    ensures Registry.Listeners(Registry.On(prev, name, l), key)
         == before + Repeat(l, n + if name == key then 1 else 0)
  {
    if name == key {
      assert (before + Repeat(l, n)) + [l] == before + (Repeat(l, n) + [l]);
    }
  }

  /** test.js, "should subscribe to multiple channels at once": each of
      three distinct channels gets the callback once. */
  lemma MultipleChannelsExample()
    ensures var r := OnAll(Registry.Empty(), ["one", "two", "three"], Callback(0));
      && Registry.Listeners(r, "one") == [Callback(0)]
      && Registry.Listeners(r, "two") == [Callback(0)]
      && Registry.Listeners(r, "three") == [Callback(0)]
  {
    var names := ["one", "two", "three"];
    assert names[..2] == ["one", "two"] && names[..2][..1] == ["one"] && names[..2][..1][..0] == [];
    assert "one" != "two" && "one" != "three" && "two" != "three" by {
      assert "one"[0] != "two"[0];
    }
    assert Count(names[..2][..1], "one") == 1 && Count(names[..2][..1], "two") == 0 && Count(names[..2][..1], "three") == 0;
    assert Count(names[..2], "one") == 1 && Count(names[..2], "two") == 1 && Count(names[..2], "three") == 0;
    assert Count(names, "one") == 1 && Count(names, "two") == 1 && Count(names, "three") == 1;
    OnAllListeners(Registry.Empty(), names, Callback(0), "one");
    OnAllListeners(Registry.Empty(), names, Callback(0), "two");
    OnAllListeners(Registry.Empty(), names, Callback(0), "three");
  }

  /** A key's listeners change under `OnAll` exactly when the key is named. */
  lemma OnAllChangesExactlyNamed(r: Registry.Registry, names: seq<string>, l: Listener, key: string)
    requires Registry.Valid(r)
    ensures Registry.Listeners(OnAll(r, names, l), key) != Registry.Listeners(r, key) <==> key in names
  {
    OnAllListeners(r, names, l, key);
    CountPositiveIffIn(names, key);
    var before := Registry.Listeners(r, key);
    var added := Repeat(l, Count(names, key));
    if added != [] {
      assert |before + added| > |before|;
    } else {
      assert before + added == before;
    }
  }

  /** A key occurs in `names` exactly when it is counted there. */
  lemma {:induction false} CountPositiveIffIn(names: seq<string>, key: string)
    ensures Count(names, key) > 0 <==> key in names
  {
    if names != [] {
      var init := names[..|names| - 1];
      CountPositiveIffIn(init, key);
      assert names == init + [names[|names| - 1]];
    }
  }

  // ---------------------------------------------------------------------
  // Unsubscription

  /** One step of an unsubscribe: remove the given callback from `channel`,
      or all of its listeners when no callback was given. */
  function Unlisten(r: Registry.Registry, channel: string, callback: Option<Listener>): (r': Registry.Registry)
    requires Registry.Valid(r)
    ensures Registry.Valid(r')
  {
    if callback.Some? then Registry.RemoveListener(r, channel, callback.value)
    else Registry.RemoveAllListeners(r, channel)
  }

  /** The registry after unsubscribing `channels`, in order. */
  function UnsubState(r: Registry.Registry, channels: seq<string>, callback: Option<Listener>): (r': Registry.Registry)
    requires Registry.Valid(r)
    ensures Registry.Valid(r')
  {
    if channels == [] then r
    else Unlisten(UnsubState(r, channels[..|channels| - 1], callback), channels[|channels| - 1], callback)
  }

  /** The channels an unsubscribe passes to the transport: each listed
      channel, in order, for which `unlistened` holds of its listeners right
      after its own removal step. */
  function UnsubBatch(r: Registry.Registry, channels: seq<string>, callback: Option<Listener>,
                      unlistened: seq<Listener> -> bool): (batch: seq<string>)
    requires Registry.Valid(r)
    ensures |batch| <= |channels|
    ensures forall k :: k in batch ==> k in channels
  {
    if channels == [] then []
    else
      var last := channels[|channels| - 1];
      UnsubBatch(r, channels[..|channels| - 1], callback, unlistened)
        + (if unlistened(Registry.Listeners(UnsubState(r, channels, callback), last)) then [last] else [])
  }

  lemma UnsubStep(r: Registry.Registry, channels: seq<string>, i: nat, callback: Option<Listener>,
                  unlistened: seq<Listener> -> bool)
    requires Registry.Valid(r) && i < |channels|
    ensures UnsubState(r, channels[..i + 1], callback)
         == Unlisten(UnsubState(r, channels[..i], callback), channels[i], callback)
    ensures UnsubBatch(r, channels[..i + 1], callback, unlistened)
         == UnsubBatch(r, channels[..i], callback, unlistened)
            + (if unlistened(Registry.Listeners(UnsubState(r, channels[..i + 1], callback), channels[i]))
               then [channels[i]] else [])
  {
    assert channels[..i + 1][..i] == channels[..i];
  }

  /** The guard `!self.listeners(channel)` of the `_unsub` loop: the
      JavaScript falsiness of the array `listeners` returns. Every array,
      empty or not, is truthy, so the guard is constantly false and ignores
      what the array holds. */
  function ArrayIsFalsy(ls: seq<Listener>): (falsy: bool)
    ensures !falsy
  {
    false
  }

  /** The guard the documentation describes: no listener is left. */
  function NoListenerLeft(ls: seq<Listener>): (left: bool)
    ensures left <==> |ls| == 0
  {
    ls == []
  }

  /** As written, the unsubscribe batch is always empty. */
  lemma {:induction false} AsWrittenBatchIsEmpty(r: Registry.Registry, channels: seq<string>, callback: Option<Listener>)
    requires Registry.Valid(r)
    ensures UnsubBatch(r, channels, callback, ArrayIsFalsy) == []
  {
    if channels != [] {
      AsWrittenBatchIsEmpty(r, channels[..|channels| - 1], callback);
    }
  }

  /** Removal never gives a channel listeners back. */
  lemma UnlistenKeepsEmpty(r: Registry.Registry, channel: string, callback: Option<Listener>, key: string)
    requires Registry.Valid(r) && Registry.Listeners(r, key) == []
    ensures Registry.Listeners(Unlisten(r, channel, callback), key) == []
  {
  }

  /** Unsubscribing leaves every channel that is not listed as it was. */
  lemma {:induction false} UnsubKeepsUnlisted(r: Registry.Registry, channels: seq<string>, callback: Option<Listener>, key: string)
    requires Registry.Valid(r) && key !in channels
    ensures Registry.Listeners(UnsubState(r, channels, callback), key) == Registry.Listeners(r, key)
  {
    if channels != [] {
      UnsubKeepsUnlisted(r, channels[..|channels| - 1], callback, key);
    }
  }

  /** Without a callback, every listed channel ends with no listeners. */
  lemma {:induction false} UnsubAllEmptiesListed(r: Registry.Registry, channels: seq<string>, key: string)
    requires Registry.Valid(r) && key in channels
    ensures Registry.Listeners(UnsubState(r, channels, None), key) == []
  {
    var init := channels[..|channels| - 1];
    if channels[|channels| - 1] != key {
      assert channels == init + [channels[|channels| - 1]];
      UnsubAllEmptiesListed(r, init, key);
    }
  }

  /** With a callback, a channel listed once loses exactly the most recently
      added instance of that callback. */
  lemma {:induction false} UnsubOneRemovesOne(r: Registry.Registry, channels: seq<string>, l: Listener, key: string)
    requires Registry.Valid(r) && Count(channels, key) == 1
    ensures Registry.Listeners(UnsubState(r, channels, Some(l)), key)
         == Registry.RemoveLast(Registry.Listeners(r, key), l)
  {
    var init := channels[..|channels| - 1];
    var last := channels[|channels| - 1];
    if last == key {
      CountPositiveIffIn(init, key);
      UnsubKeepsUnlisted(r, init, Some(l), key);
    } else {
      UnsubOneRemovesOne(r, init, l, key);
    }
  }

  /** With the documented guard, a channel is sent to the transport exactly
      when it was listed and has no listener left once the call completes. */
  lemma {:induction false} CorrectedBatchIsExact(r: Registry.Registry, channels: seq<string>, callback: Option<Listener>, key: string)
    requires Registry.Valid(r)
    ensures key in UnsubBatch(r, channels, callback, NoListenerLeft)
        <==> key in channels && Registry.Listeners(UnsubState(r, channels, callback), key) == []
  {
    if channels != [] {
      var init := channels[..|channels| - 1];
      var last := channels[|channels| - 1];
      assert channels == init + [last];
      CorrectedBatchIsExact(r, init, callback, key);
      var before := UnsubState(r, init, callback);
      if key != last {
        assert Registry.Listeners(UnsubState(r, channels, callback), key) == Registry.Listeners(before, key);
      } else if Registry.Listeners(before, key) == [] {
        UnlistenKeepsEmpty(before, last, callback, key);
      }
    }
  }

  /** The last listener of `foo` is removed, yet `_unsub` in lib/channels.js
      sends UNSUBSCRIBE with no channel, where the documented guard would
      send `foo`. */
  lemma AsWrittenBatchOmitsEmptiedChannel()
    ensures var r := Registry.On(Registry.Empty(), "foo", Callback(0));
      && Registry.Listeners(UnsubState(r, ["foo"], Some(Callback(0))), "foo") == []
      && UnsubBatch(r, ["foo"], Some(Callback(0)), ArrayIsFalsy) == []
      && UnsubBatch(r, ["foo"], Some(Callback(0)), NoListenerLeft) == ["foo"]
  {
    var r := Registry.On(Registry.Empty(), "foo", Callback(0));
    Registry.RemoveLastOfAppended([], Callback(0));
    assert ["foo"][..0] == [];
  }

  // ---------------------------------------------------------------------
  // Inbound messages

  /** What an inbound `(channel, data)` notification delivers. */
  datatype Delivery = Ignored | ParseFailure | Deliver(data: Value)

  /** A notification with an empty channel is ignored; a string payload is
      decoded when decoding is on; a payload that fails to decode throws. */
  function Inbound(toJSON: bool, parse: string -> Option<Value>, channel: string, data: Value): (d: Delivery)
    ensures d.Ignored? <==> channel == ""
    ensures d.ParseFailure? <==> channel != "" && toJSON && data.Str? && parse(data.s).None?
    ensures d.Deliver? && toJSON && data.Str? ==> parse(data.s) == Some(d.data)
    ensures d.Deliver? && !(toJSON && data.Str?) ==> d.data == data
  {
    if channel == "" then Ignored
    else if toJSON && data.Str? then
      match parse(data.s)
      case None => ParseFailure
      case Some(v) => Deliver(v)
    else Deliver(data)
  }

  class Channels {
    const emitter: Gevent
    const toJSON: bool
    const parse: string -> Option<Value>
    var ready: bool
    /** Whether the constructor left a handler on the transport's `ready` event. */
    var awaitingClient: bool
    var log: seq<Command>

    ghost predicate Valid()
      reads this, emitter
    {
      emitter.Valid()
    }

    /** The transport either reports itself ready now, or will signal it later. */
    constructor (clientReady: bool, toJSON: bool, parse: string -> Option<Value>)
      ensures Valid() && fresh(emitter)
      ensures this.toJSON == toJSON && this.parse == parse
      ensures ready == clientReady && awaitingClient == !clientReady
      ensures log == []
      ensures emitter.registry == Registry.Empty() && emitter.queue == [] && emitter.invoked == []
    {
      emitter := new Gevent();
      this.toJSON := toJSON;
      this.parse := parse;
      ready := false;
      awaitingClient := false;
      log := [];
      new;
      if clientReady {
        BecomeReady();
      } else {
        awaitingClient := true;
      }
    }

    /** The constructor's `ready` callback: set the flag and emit `ready`. */
    method BecomeReady()
      requires Valid()
      modifies this, emitter
      ensures Valid() && ready
      ensures awaitingClient == old(awaitingClient) && log == old(log)
      ensures emitter.registry == old(emitter.registry) && emitter.invoked == old(emitter.invoked)
      ensures emitter.queue == old(emitter.queue) + Tasks("ready", emitter.registry.keys, [])
    {
      ready := true;
      var _ := emitter.Emit("ready", []);
    }

    /** The transport signals `ready`; only a handler the constructor attached reacts. */
    method ClientReady()
      requires Valid()
      modifies this, emitter
      ensures Valid()
      ensures ready == (old(ready) || awaitingClient)
      ensures awaitingClient == old(awaitingClient) && log == old(log)
      ensures emitter.registry == old(emitter.registry) && emitter.invoked == old(emitter.invoked)
      ensures emitter.queue == old(emitter.queue)
        + (if awaitingClient then Tasks("ready", emitter.registry.keys, []) else [])
    {
      if awaitingClient {
        BecomeReady();
      }
    }

    /** `on(names..., callback)`: the last argument is always taken as the
        listener and added to every name before it, in order; the transport
        is not involved. A listener that is not a function makes the first
        registration throw, before anything is registered. */
    method On(args: seq<Value>) returns (status: Status)
      requires Valid() && NamesThenAny(args)
      modifies emitter
      ensures Valid()
      ensures emitter.queue == old(emitter.queue) && emitter.invoked == old(emitter.invoked)
      ensures args == [] ==> status == Done && emitter.registry == old(emitter.registry)
      ensures args != [] ==>
        var names := Names(args[..|args| - 1]);
        var next := args[|args| - 1];
        && (next.Fn? ==> status == Done && emitter.registry == OnAll(old(emitter.registry), names, next.f))
        && (!next.Fn? ==> status == (if names == [] then Done else NotAFunction)
                          && emitter.registry == old(emitter.registry))
    {
      status := Done;
      if args == [] {
        return;
      }
      var names := Names(args[..|args| - 1]);
      var next := args[|args| - 1];
      if !next.Fn? {
        if names != [] {
          status := NotAFunction;
        }
        return;
      }
      var i := 0;
      while i < |names|
        invariant 0 <= i <= |names|
        invariant emitter.Valid()
        invariant emitter.registry == OnAll(old(emitter.registry), names[..i], next.f)
        invariant emitter.queue == old(emitter.queue) && emitter.invoked == old(emitter.invoked)
      {
        OnAllStep(old(emitter.registry), names, i, next.f);
        emitter.On(names[i], next.f);
        i := i + 1;
      }
      assert names[..i] == names;
    }

    /** `subscribe`/`psubscribe(channels..., [callback])`: add the callback,
        or the empty function when none is given, to every listed channel in
        order, then issue one transport command for the whole channel list. */
    method Sub(kind: SubCommand, args: seq<Value>)
      requires Valid() && NamesThenCallback(args)
      modifies this, emitter
      ensures Valid()
      ensures ready == old(ready) && awaitingClient == old(awaitingClient)
      ensures var split := SplitCallback(args);
        && emitter.registry == OnAll(old(emitter.registry), split.channels,
                                     if split.callback.Some? then split.callback.value else Noop)
        && log == old(log) + [Command.Sub(kind, split.channels)]
      ensures emitter.queue == old(emitter.queue) && emitter.invoked == old(emitter.invoked)
    {
      var split := SplitCallback(args);
      var channels := split.channels;
      var next := if split.callback.Some? then split.callback.value else Noop;
      var i := 0;
      while i < |channels|
        invariant 0 <= i <= |channels|
        invariant emitter.Valid()
        invariant emitter.registry == OnAll(old(emitter.registry), channels[..i], next)
        invariant emitter.queue == old(emitter.queue) && emitter.invoked == old(emitter.invoked)
        invariant log == old(log) && ready == old(ready) && awaitingClient == old(awaitingClient)
      {
        OnAllStep(old(emitter.registry), channels, i, next);
        // `on(channel, next)` with a function as its last argument registers
        // `next` under the one name before it, as the emitter's own `on` does.
        emitter.On(channels[i], next);
        i := i + 1;
      }
      assert channels[..i] == channels;
      log := log + [Command.Sub(kind, channels)];
    }

    /** `unsubscribe`/`punsubscribe(channels..., [callback])` as written:
        from each listed channel in order remove the callback, or all
        listeners when none is given, then issue one transport command whose
        channel list is built with the guard of the `_unsub` loop,
        `!listeners(channel)`, and so is always empty. */
    method Unsub(kind: UnsubCommand, args: seq<Value>)
      requires Valid() && NamesThenCallback(args)
      modifies this, emitter
      ensures Valid()
      ensures ready == old(ready) && awaitingClient == old(awaitingClient)
      ensures var split := SplitCallback(args);
        emitter.registry == UnsubState(old(emitter.registry), split.channels, split.callback)
      ensures log == old(log) + [Command.Unsub(kind, [])]
      ensures emitter.queue == old(emitter.queue) && emitter.invoked == old(emitter.invoked)
    {
      var split := SplitCallback(args);
      UnsubWith(kind, args, ArrayIsFalsy);
      AsWrittenBatchIsEmpty(old(emitter.registry), split.channels, split.callback);
    }

    /** The same operation with the guard its documentation describes: the
        transport is told to drop exactly the listed channels that are left
        with no listener. */
    method UnsubCorrected(kind: UnsubCommand, args: seq<Value>)
      requires Valid() && NamesThenCallback(args)
      modifies this, emitter
      ensures Valid()
      ensures ready == old(ready) && awaitingClient == old(awaitingClient)
      ensures var split := SplitCallback(args);
        && emitter.registry == UnsubState(old(emitter.registry), split.channels, split.callback)
        && |log| == |old(log)| + 1 && log[..|old(log)|] == old(log)
        && log[|old(log)|].Unsub? && log[|old(log)|].unsub == kind
        && forall key :: key in log[|old(log)|].channels
             <==> key in split.channels && Registry.Listeners(emitter.registry, key) == []
      ensures emitter.queue == old(emitter.queue) && emitter.invoked == old(emitter.invoked)
    {
      var split := SplitCallback(args);
      ghost var r := emitter.registry;
      UnsubWith(kind, args, NoListenerLeft);
      forall key
        ensures key in UnsubBatch(r, split.channels, split.callback, NoListenerLeft)
            <==> key in split.channels && Registry.Listeners(emitter.registry, key) == []
      {
        CorrectedBatchIsExact(r, split.channels, split.callback, key);
      }
    }

    /** The unsubscribe loop, for the guard `unlistened` that decides, from
        what a channel has left after its removal step, whether the channel
        goes into the transport command. */
    method UnsubWith(kind: UnsubCommand, args: seq<Value>, unlistened: seq<Listener> -> bool)
      requires Valid() && NamesThenCallback(args)
      modifies this, emitter
      ensures Valid()
      ensures ready == old(ready) && awaitingClient == old(awaitingClient)
      ensures var split := SplitCallback(args);
        && emitter.registry == UnsubState(old(emitter.registry), split.channels, split.callback)
        && log == old(log) + [Command.Unsub(kind, UnsubBatch(old(emitter.registry), split.channels, split.callback, unlistened))]
      ensures emitter.queue == old(emitter.queue) && emitter.invoked == old(emitter.invoked)
    {
      var split := SplitCallback(args);
      var channels := split.channels;
      ghost var r0 := emitter.registry;
      var unsubs: seq<string> := [];
      var i := 0;
      while i < |channels|
        invariant 0 <= i <= |channels|
        invariant emitter.Valid()
        invariant emitter.registry == UnsubState(r0, channels[..i], split.callback)
        invariant unsubs == UnsubBatch(r0, channels[..i], split.callback, unlistened)
        invariant emitter.queue == old(emitter.queue) && emitter.invoked == old(emitter.invoked)
        modifies emitter
      {
        UnsubStep(r0, channels, i, split.callback, unlistened);
        var channel := channels[i];
        var remaining := UnlistenChannel(channel, split.callback);
        if unlistened(remaining) {
          unsubs := unsubs + [channel];
        }
        i := i + 1;
      }
      assert channels[..i] == channels;
      log := log + [Command.Unsub(kind, unsubs)];
    }

    /** The body of the unsubscribe loop for one channel: remove the callback,
        or every listener, and read back what the channel has left. */
    method UnlistenChannel(channel: string, callback: Option<Listener>) returns (remaining: seq<Listener>)
      requires Valid()
      modifies emitter
      ensures Valid()
      ensures emitter.registry == Unlisten(old(emitter.registry), channel, callback)
      ensures remaining == Registry.Listeners(emitter.registry, channel)
      ensures emitter.queue == old(emitter.queue) && emitter.invoked == old(emitter.invoked)
    {
      if callback.Some? {
        emitter.RemoveListener(channel, callback.value);
      } else {
        emitter.RemoveAllListeners(channel);
      }
      remaining := emitter.Listeners(channel);
    }

    /** `publish(...)`: hand the arguments to the transport, nothing else. */
    method Publish(args: seq<Value>)
      requires Valid()
      modifies this
      ensures Valid()
      ensures log == old(log) + [Command.Publish(args)]
      ensures ready == old(ready) && awaitingClient == old(awaitingClient)
    {
      log := log + [Command.Publish(args)];
    }

    /** The transport's `message(channel, data)` notification: unless it is
        ignored or its payload fails to decode, emit the channel name with
        the arguments `(channel, data)`. */
    method Message(channel: string, data: Value) returns (status: Status)
      requires Valid()
      modifies emitter
      ensures Valid()
      ensures emitter.registry == old(emitter.registry) && emitter.invoked == old(emitter.invoked)
      ensures var d := Inbound(toJSON, parse, channel, data);
        && (status == ParseError <==> d.ParseFailure?)
        && (status != ParseError ==> status == Done)
        && emitter.queue == old(emitter.queue)
             + (if d.Deliver? then Tasks(channel, emitter.registry.keys, [Str(channel), d.data]) else [])
    {
      var d := Inbound(toJSON, parse, channel, data);
      match d
      case Ignored =>
        status := Done;
      case ParseFailure =>
        status := ParseError;
      case Deliver(payload) =>
        var _ := emitter.Emit(channel, [Str(channel), payload]);
        status := Done;
    }

    /** The transport's `pmessage(pattern, channel, data)` notification: the
        pattern is discarded and the notification handled as `message`. */
    method PMessage(pattern: string, channel: string, data: Value) returns (status: Status)
      requires Valid()
      modifies emitter
      ensures Valid()
      ensures emitter.registry == old(emitter.registry) && emitter.invoked == old(emitter.invoked)
      ensures var d := Inbound(toJSON, parse, channel, data);
        && (status == ParseError <==> d.ParseFailure?)
        && (status != ParseError ==> status == Done)
        && emitter.queue == old(emitter.queue)
             + (if d.Deliver? then Tasks(channel, emitter.registry.keys, [Str(channel), d.data]) else [])
    {
      status := Message(channel, data);
    }
  }

  /** A decoder for routers that never decode (`toJSON` off). */
  function NoDecode(s: string): Option<Value> {
    None
  }

  /** Splitting a one-channel argument list, with and without a callback. */
  lemma SplitOneChannel(name: string, l: Listener)
    ensures SplitCallback([Str(name), Fn(l)]) == Split([name], Some(l))
    ensures SplitCallback([Str(name)]) == Split([name], None)
  {
    assert [Str(name), Fn(l)][..1] == [Str(name)];
  }

  lemma OnAllOneChannel(r: Registry.Registry, name: string, l: Listener)
    requires Registry.Valid(r)
    ensures OnAll(r, [name], l) == Registry.On(r, name, l)
  {
    assert [name][..0] == [];
  }

  /** A router over a transport that is, or is not yet, ready, on which
      `on(name, l)` has been called. */
  method ListeningRouter(clientReady: bool, name: string, l: Listener) returns (c: Channels)
    ensures fresh(c) && fresh(c.emitter) && c.Valid()
    ensures c.ready == clientReady && c.awaitingClient == !clientReady && c.log == []
    ensures !c.toJSON && c.parse == NoDecode
    ensures c.emitter.registry == Registry.On(Registry.Empty(), name, l)
    ensures c.emitter.queue == [] && c.emitter.invoked == []
  {
    c := new Channels(clientReady, false, NoDecode);
    assert [Str(name), Fn(l)][..1] == [Str(name)];
    assert Names([Str(name)]) == [name];
    OnAllOneChannel(c.emitter.registry, name, l);
    var _ := c.On([Str(name), Fn(l)]);
  }

  /** `subscribe`/`psubscribe` of one channel, with or without a callback. */
  method SubscribeOne(c: Channels, kind: SubCommand, name: string, callback: Option<Listener>)
    requires c.Valid()
    modifies c, c.emitter
    ensures c.Valid()
    ensures c.emitter.registry
         == Registry.On(old(c.emitter.registry), name, if callback.Some? then callback.value else Noop)
    ensures c.log == old(c.log) + [Command.Sub(kind, [name])]
    ensures c.ready == old(c.ready) && c.awaitingClient == old(c.awaitingClient)
    ensures c.emitter.queue == old(c.emitter.queue) && c.emitter.invoked == old(c.emitter.invoked)
  {
    var l := if callback.Some? then callback.value else Noop;
    SplitOneChannel(name, l);
    OnAllOneChannel(c.emitter.registry, name, l);
    if callback.Some? {
      c.Sub(kind, [Str(name), Fn(l)]);
    } else {
      c.Sub(kind, [Str(name)]);
    }
  }

  /** An inbound `message` (or, given a pattern, `pmessage`) notification for
      `channel` on a router whose only key is `key`, then the task it queued runs. */
  method NotifyAndRun(c: Channels, pattern: Option<string>, channel: string, data: Value, key: string)
    requires c.Valid() && !c.toJSON && channel != ""
    requires c.emitter.queue == [] && c.emitter.registry.keys == [key]
    modifies c.emitter
    ensures c.Valid()
    ensures c.emitter.registry == old(c.emitter.registry) && c.emitter.queue == []
    ensures c.emitter.invoked
         == old(c.emitter.invoked) + Dispatch(Task(channel, key, [Str(channel), data]), c.emitter.registry)
  {
    assert Inbound(c.toJSON, c.parse, channel, data) == Deliver(data);
    var status;
    if pattern.Some? {
      status := c.PMessage(pattern.value, channel, data);
    } else {
      status := c.Message(channel, data);
    }
    TasksOfOneKey(channel, key, [Str(channel), data]);
    var _ := c.emitter.RunNextTask();
  }

  /** test.js, "should use the callback from subscribe on publish": the
      callback receives the channel name and the payload. */
  method SubscribeThenMessage() returns (log: seq<Command>, calls: seq<Invocation>)
    ensures log == [Command.Sub(Subscribe, ["foo"])]
    ensures calls == [Invocation(Callback(0), [Str("foo"), Str("hello")])]
  {
    var c := new Channels(true, false, NoDecode);
    SubscribeOne(c, Subscribe, "foo", Some(Callback(0)));
    ghost var r := c.emitter.registry;
    assert r.keys == ["foo"];
    NotifyAndRun(c, None, "foo", Str("hello"), "foo");
    var args := [Str("foo"), Str("hello")];
    assert Dispatch(Task("foo", "foo", args), r) == [Invocation(Callback(0), args)] by {
      LiteralMatchesOnlyItself("foo", "foo");
      assert Registry.Listeners(r, "foo") == [Callback(0)];
    }
    log := c.log;
    calls := c.emitter.invoked;
  }

  /** test.js, "should use a listener style callback for publish": `on`
      registers without a transport command; the later `subscribe` without a
      callback registers the empty function behind it. */
  method OnThenSubscribe() returns (log: seq<Command>, calls: seq<Invocation>)
    ensures log == [Command.Sub(Subscribe, ["bar"])]
    ensures calls == [Invocation(Callback(0), [Str("bar"), Str("oh hai")]),
                      Invocation(Noop, [Str("bar"), Str("oh hai")])]
  {
    var c := ListeningRouter(true, "bar", Callback(0));
    SubscribeOne(c, Subscribe, "bar", None);
    ghost var r := c.emitter.registry;
    assert r.keys == ["bar"];
    NotifyAndRun(c, None, "bar", Str("oh hai"), "bar");
    var args := [Str("bar"), Str("oh hai")];
    assert Dispatch(Task("bar", "bar", args), r) == [Invocation(Callback(0), args), Invocation(Noop, args)] by {
      LiteralMatchesOnlyItself("bar", "bar");
      assert Registry.Listeners(r, "bar") == [Callback(0), Noop];
    }
    log := c.log;
    calls := c.emitter.invoked;
  }

  /** test.js, "should use pattern subscribtions": a pattern message is
      routed by its channel, which the registered glob matches. */
  method PatternMessage() returns (log: seq<Command>, calls: seq<Invocation>)
    ensures log == [Command.Sub(PSubscribe, ["*il*"])]
    ensures calls == [Invocation(Callback(0), [Str("milk"), Str("chocolate")]),
                      Invocation(Noop, [Str("milk"), Str("chocolate")])]
  {
    var c := ListeningRouter(true, "*il*", Callback(0));
    SubscribeOne(c, PSubscribe, "*il*", None);
    ghost var r := c.emitter.registry;
    assert r.keys == ["*il*"];
    NotifyAndRun(c, Some("*il*"), "milk", Str("chocolate"), "*il*");
    var args := [Str("milk"), Str("chocolate")];
    assert Dispatch(Task("milk", "*il*", args), r) == [Invocation(Callback(0), args), Invocation(Noop, args)] by {
      InfixExample();
      assert Registry.Listeners(r, "*il*") == [Callback(0), Noop];
    }
    log := c.log;
    calls := c.emitter.invoked;
  }

  /** test.js, "should emit a `ready` event": a listener attached before the
      transport is ready is called once the transport signals readiness. */
  method ReadyAfterConnect() returns (readyBefore: bool, readyAfter: bool, calls: seq<Invocation>)
    ensures !readyBefore && readyAfter
    ensures calls == [Invocation(Callback(0), [])]
  {
    var c := ListeningRouter(false, "ready", Callback(0));
    readyBefore := c.ready;
    ghost var r := c.emitter.registry;
    c.ClientReady();
    readyAfter := c.ready;
    assert c.emitter.queue == [Task("ready", "ready", [])] by {
      assert r.keys == ["ready"];
      TasksOfOneKey("ready", "ready", []);
    }
    assert Dispatch(Task("ready", "ready", []), r) == [Invocation(Callback(0), [])] by {
      LiteralMatchesOnlyItself("ready", "ready");
      assert Registry.Listeners(r, "ready") == [Callback(0)];
    }
    var _ := c.emitter.RunNextTask();
    calls := c.emitter.invoked;
  }

  /** Removing the last listener of `foo` leaves `foo` unregistered locally
      while the transport is sent UNSUBSCRIBE with an empty channel list. */
  method UnsubscribeLastListener() returns (log: seq<Command>, left: seq<Listener>)
    ensures log == [Command.Sub(Subscribe, ["foo"]), Command.Unsub(Unsubscribe, [])]
    ensures left == []
  {
    var c := new Channels(true, false, NoDecode);
    SubscribeOne(c, Subscribe, "foo", Some(Callback(0)));
    SplitOneChannel("foo", Callback(0));
    c.Unsub(Unsubscribe, [Str("foo"), Fn(Callback(0))]);
    assert ["foo"][..0] == [];
    Registry.RemoveListenerUndoesOn(Registry.Empty(), "foo", Callback(0));
    assert c.emitter.registry == Registry.Empty();
    log := c.log;
    left := c.emitter.Listeners("foo");
  }
}
