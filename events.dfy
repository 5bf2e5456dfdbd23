/** karma's event emitter (`lib/events.js`, exercised by
    `test/unit/events.spec.js`): a registry of listeners per event name,
    `bind`/`bindAll` subscribing an object's `on<Name>` methods under the
    snake-case name, `emitAsync` waiting for every listener's `done`
    callback, and `bufferEvents` recording emissions for a later replay.

    Listeners are identified by the id of the function they invoke; what a
    call does is recorded in the `delivered` log. A promise continuation
    runs in a later turn of the event loop (`Turn`). */
module Events {
  import opened Strings
  import opened Seqs
  import opened Helper

  /** What a listener receives: a value, the `done` callback of the
      `emitAsync` call with that number, or the emitter itself. */
  datatype Arg = Value(text: string) | DoneCallback(call: nat) | Context

  /** A listener: the method with id `id` of a bound object (`bindAll`
      appends the emitter to its arguments), or the recording listener of
      `bufferEvents` call number `buffer`. */
  datatype Listener = Method(id: nat, withContext: bool) | Recorder(buffer: nat)

  /** One invocation of a method listener. */
  datatype Delivery = Delivery(callee: nat, args: seq<Arg>)

  /** One emission recorded by `bufferEvents` call number `buffer`. */
  datatype Recorded = Recorded(buffer: nat, event: string, args: seq<Arg>)

  /** A member of an object, as `for (name in object)` lists it: its name and
      the id of the function it holds. */
  datatype Member = Member(name: string, id: nat)

  type Registry = map<string, seq<Listener>>

  function ListenersOf(r: Registry, event: string): seq<Listener> {
    if event in r then r[event] else []
  }

  function ArgsFor(l: Listener, args: seq<Arg>): seq<Arg>
    requires l.Method?
  {
    if l.withContext then args + [Context] else args
  }

  /** The method calls one dispatch of `args` to `ls` makes, in listener
      order. */
  function Deliveries(ls: seq<Listener>, args: seq<Arg>): seq<Delivery>
    decreases |ls|
  {
    if ls == [] then []
    else
      var last := ls[|ls| - 1];
      Deliveries(ls[..|ls| - 1], args) + (if last.Method? then [Delivery(last.id, ArgsFor(last, args))] else [])
  }

  /** The recordings one dispatch of `args` under `event` to `ls` makes. */
  function Recordings(ls: seq<Listener>, event: string, args: seq<Arg>): seq<Recorded>
    decreases |ls|
  {
    if ls == [] then []
    else
      var last := ls[|ls| - 1];
      Recordings(ls[..|ls| - 1], event, args) + (if last.Recorder? then [Recorded(last.buffer, event, args)] else [])
  }

  /** A dispatch calls every method listener, with the emitted arguments,
      and nothing else. */
  lemma {:induction false} DeliveriesExactly(ls: seq<Listener>, args: seq<Arg>)
    ensures forall l :: l in ls && l.Method? ==> Delivery(l.id, ArgsFor(l, args)) in Deliveries(ls, args)
    ensures forall d :: d in Deliveries(ls, args) ==>
      exists l :: l in ls && l.Method? && d == Delivery(l.id, ArgsFor(l, args))
    decreases |ls|
  {
    if ls != [] {
      var init := ls[..|ls| - 1];
      DeliveriesExactly(init, args);
      assert ls == init + [ls[|ls| - 1]];
      forall d | d in Deliveries(ls, args)
        ensures exists l :: l in ls && l.Method? && d == Delivery(l.id, ArgsFor(l, args))
      {
        if d in Deliveries(init, args) {
          var l :| l in init && l.Method? && d == Delivery(l.id, ArgsFor(l, args));
          assert l in ls;
        }
      }
    }
  }

  /** A dispatch records into the buffer of every recording listener, and
      nowhere else. */
  lemma {:induction false} RecordingsExactly(ls: seq<Listener>, event: string, args: seq<Arg>)
    ensures forall l :: l in ls && l.Recorder? ==> Recorded(l.buffer, event, args) in Recordings(ls, event, args)
    ensures forall x :: x in Recordings(ls, event, args) ==>
      Recorder(x.buffer) in ls && x.event == event && x.args == args
    decreases |ls|
  {
    if ls != [] {
      var init := ls[..|ls| - 1];
      RecordingsExactly(init, event, args);
      assert ls == init + [ls[|ls| - 1]];
    }
  }

  /** A method that `bind` subscribes: its name starts with `on`. */
  predicate IsHandler(name: string) {
    StartsWith(name, "on")
  }

  /** The event an `on<Name>` method listens to. */
  function EventOf(name: string): string
    requires IsHandler(name)
  {
    CamelToSnake(name[2..])
  }

  /** What binding `object` adds to the listeners of `event`, in member
      order. */
  function Handlers(obj: seq<Member>, event: string, withContext: bool): seq<Listener>
    decreases |obj|
  {
    if obj == [] then []
    else
      var last := obj[|obj| - 1];
      Handlers(obj[..|obj| - 1], event, withContext)
        + (if IsHandler(last.name) && EventOf(last.name) == event then [Method(last.id, withContext)] else [])
  }

  /** `bind` subscribes to `event` exactly the `on<Name>` members whose
      snake-case name is `event`. */
  lemma {:induction false} HandlersExactly(obj: seq<Member>, event: string, withContext: bool)
    ensures forall l :: l in Handlers(obj, event, withContext) ==>
      (l.Method? && l.withContext == withContext
       && exists m :: m in obj && IsHandler(m.name) && EventOf(m.name) == event && m.id == l.id)
    ensures forall m :: m in obj && IsHandler(m.name) && EventOf(m.name) == event ==>
      Method(m.id, withContext) in Handlers(obj, event, withContext)
    decreases |obj|
  {
    if obj != [] {
      var init := obj[..|obj| - 1];
      HandlersExactly(init, event, withContext);
      assert obj == init + [obj[|obj| - 1]];
      forall l | l in Handlers(obj, event, withContext)
        ensures exists m :: m in obj && IsHandler(m.name) && EventOf(m.name) == event && m.id == l.id
      {
        if l in Handlers(init, event, withContext) {
          var m :| m in init && IsHandler(m.name) && EventOf(m.name) == event && m.id == l.id;
          assert m in obj;
        } else {
          assert obj[|obj| - 1] in obj;
        }
      }
    }
  }

  /** The recording listeners `bufferEvents(events)` adds to `event`: one
      per occurrence of `event` in `events`. */
  function RecordersFor(events: seq<string>, event: string, buffer: nat): (r: seq<Listener>)
    ensures forall l :: l in r ==> l == Recorder(buffer)
    ensures event in events ==> Recorder(buffer) in r
    ensures event !in events ==> r == []
    decreases |events|
  {
    if events == [] then []
    else
      var init := events[..|events| - 1];
      assert forall e :: e in events ==> e in init || e == events[|events| - 1];
      RecordersFor(init, event, buffer) + (if events[|events| - 1] == event then [Recorder(buffer)] else [])
  }

  /** `s` without the occurrences of `x`, order kept. */
  function Without(s: seq<Listener>, x: Listener): (r: seq<Listener>)
    ensures x !in r
    ensures forall y :: y != x ==> (y in r <==> y in s)
  {
    if s == [] then []
    else (if s[0] == x then [] else [s[0]]) + Without(s[1..], x)
  }

  /** `s` without the last occurrence of `x`, which is what Node's
      `removeListener` takes out; `s` itself when `x` is absent. */
  function RemoveLast(s: seq<Listener>, x: Listener): seq<Listener>
    decreases |s|
  {
    if s == [] then []
    else if s[|s| - 1] == x then s[..|s| - 1]
    else RemoveLast(s[..|s| - 1], x) + [s[|s| - 1]]
  }

  /** Exactly one occurrence of `x` goes, if there is one; the rest keep
      their order. */
  lemma {:induction false} RemoveLastCount(s: seq<Listener>, x: Listener)
    ensures multiset(RemoveLast(s, x)) == multiset(s) - multiset{x}
    ensures x !in s ==> RemoveLast(s, x) == s
    decreases |s|
  {
    if s != [] {
      var init := s[..|s| - 1];
      assert s == init + [s[|s| - 1]];
      if s[|s| - 1] != x {
        RemoveLastCount(init, x);
      }
    }
  }

  /** The registry without the recording listeners of buffer `b`. */
  function Unhook(r: Registry, b: nat): (r': Registry)
    ensures r'.Keys == r.Keys
    ensures forall e :: e in r ==> r'[e] == Without(r[e], Recorder(b))
  {
    map e | e in r :: Without(r[e], Recorder(b))
  }

  /** The emissions buffer `b` recorded, in order. */
  function RecordedBy(log: seq<Recorded>, b: nat): seq<Recorded>
    decreases |log|
  {
    if log == [] then []
    else RecordedBy(log[..|log| - 1], b) + (if log[|log| - 1].buffer == b then [log[|log| - 1]] else [])
  }

  /** A replay sees exactly the emissions its own buffer recorded. */
  lemma {:induction false} RecordedByExactly(log: seq<Recorded>, b: nat)
    ensures forall x :: x in RecordedBy(log, b) <==> x in log && x.buffer == b
    decreases |log|
  {
    if log != [] {
      RecordedByExactly(log[..|log| - 1], b);
      assert log == log[..|log| - 1] + [log[|log| - 1]];
    }
  }

  /** The method calls a replay of `items` makes. */
  function ReplayDeliveries(r: Registry, items: seq<Recorded>): seq<Delivery>
    decreases |items|
  {
    if items == [] then []
    else
      var last := items[|items| - 1];
      ReplayDeliveries(r, items[..|items| - 1]) + Deliveries(ListenersOf(r, last.event), last.args)
  }

  /** The recordings a replay of `items` makes in other buffers. */
  function ReplayRecordings(r: Registry, items: seq<Recorded>): seq<Recorded>
    decreases |items|
  {
    if items == [] then []
    else
      var last := items[|items| - 1];
      ReplayRecordings(r, items[..|items| - 1]) + Recordings(ListenersOf(r, last.event), last.event, last.args)
  }

  /** A listener that subscribed to every replayed event, and is alone
      there, receives the buffered emissions in their original order. */
  lemma {:induction false} ReplayInOrder(r: Registry, items: seq<Recorded>, id: nat)
    requires forall k :: 0 <= k < |items| ==> ListenersOf(r, items[k].event) == [Method(id, false)]
    ensures |ReplayDeliveries(r, items)| == |items|
    ensures forall k :: 0 <= k < |items| ==> ReplayDeliveries(r, items)[k] == Delivery(id, items[k].args)
    decreases |items|
  {
    if items != [] {
      var init := items[..|items| - 1];
      var last := items[|items| - 1];
      ReplayInOrder(r, init, id);
      var one := Deliveries(ListenersOf(r, last.event), last.args);
      assert ListenersOf(r, last.event) == [Method(id, false)];
      assert one == Deliveries([], last.args) + [Delivery(id, last.args)];
      assert one == [Delivery(id, last.args)];
    }
  }

  lemma ReplaySnoc(r: Registry, items: seq<Recorded>, i: nat, d0: seq<Delivery>, r0: seq<Recorded>)
    requires i < |items|
    ensures d0 + ReplayDeliveries(r, items[..i + 1])
      == d0 + ReplayDeliveries(r, items[..i]) + Deliveries(ListenersOf(r, items[i].event), items[i].args)
    ensures r0 + ReplayRecordings(r, items[..i + 1])
      == r0 + ReplayRecordings(r, items[..i]) + Recordings(ListenersOf(r, items[i].event), items[i].event, items[i].args)
  {
    assert items[..i + 1][..i] == items[..i];
  }

  /** Every recording listener in `r` belongs to a buffer in `active`. */
  ghost predicate Hooked(r: Registry, active: set<nat>) {
    forall e, l :: e in r && l in r[e] && l.Recorder? ==> l.buffer in active
  }

  lemma HookedAppend(r: Registry, active: set<nat>, e: string, l: Listener)
    requires Hooked(r, active) && (l.Recorder? ==> l.buffer in active)
    ensures Hooked(r[e := ListenersOf(r, e) + [l]], active)
  {
  }

  lemma HookedUnhook(r: Registry, active: set<nat>, b: nat)
    requires Hooked(r, active)
    ensures Hooked(Unhook(r, b), active - {b})
  {
    var r' := Unhook(r, b);
    forall e: string, l: Listener | e in r' && l in r'[e] && l.Recorder? ensures l.buffer in active - {b} {
      assert l != Recorder(b) && l in r[e];
    }
  }

  lemma HandlersSnoc(obj: seq<Member>, i: nat, event: string, withContext: bool)
    requires i < |obj|
    ensures Handlers(obj[..i + 1], event, withContext)
      == Handlers(obj[..i], event, withContext)
         + (if IsHandler(obj[i].name) && EventOf(obj[i].name) == event then [Method(obj[i].id, withContext)] else [])
  {
    assert obj[..i + 1][..i] == obj[..i];
  }

  /** One step of `bind`: subscribing member `obj[i]` extends the
      registry by exactly its handler. */
  lemma BindStep(r0: Registry, r: Registry, r': Registry, obj: seq<Member>, i: nat, withContext: bool)
    requires i < |obj|
    requires forall e :: ListenersOf(r, e) == ListenersOf(r0, e) + Handlers(obj[..i], e, withContext)
    requires r' == if IsHandler(obj[i].name)
      then r[EventOf(obj[i].name) := ListenersOf(r, EventOf(obj[i].name)) + [Method(obj[i].id, withContext)]]
      else r
    ensures forall e :: ListenersOf(r', e) == ListenersOf(r0, e) + Handlers(obj[..i + 1], e, withContext)
  {
    forall e ensures ListenersOf(r', e) == ListenersOf(r0, e) + Handlers(obj[..i + 1], e, withContext) {
      BindStepAt(ListenersOf(r0, e), ListenersOf(r, e), ListenersOf(r', e), obj, i, e, withContext);
    }
  }

  lemma BindStepAt(l0: seq<Listener>, l: seq<Listener>, l': seq<Listener>, obj: seq<Member>, i: nat, e: string, withContext: bool)
    requires i < |obj|
    requires l == l0 + Handlers(obj[..i], e, withContext)
    requires l' == if IsHandler(obj[i].name) && EventOf(obj[i].name) == e then l + [Method(obj[i].id, withContext)] else l
    ensures l' == l0 + Handlers(obj[..i + 1], e, withContext)
  {
    HandlersSnoc(obj, i, e, withContext);
  }

  lemma RecordersSnoc(events: seq<string>, i: nat, event: string, b: nat)
    requires i < |events|
    ensures RecordersFor(events[..i + 1], event, b)
      == RecordersFor(events[..i], event, b) + (if events[i] == event then [Recorder(b)] else [])
  {
    assert events[..i + 1][..i] == events[..i];
  }

  class EventEmitter {
    var registry: Registry
    var delivered: seq<Delivery>   // method listener calls, in order
    var recorded: seq<Recorded>    // emissions recorded by `bufferEvents`, in order
    var buffering: set<nat>        // `bufferEvents` calls not replayed yet
    var buffers: nat               // how many `bufferEvents` calls were made
    var expected: seq<nat>         // per `emitAsync` call: the listeners handed its `done`
    var doneCalls: seq<nat>        // per `emitAsync` call: how often its `done` was called
    var settled: set<nat>          // `emitAsync` calls whose promise continuation ran

    ghost predicate Valid() reads this {
      && |expected| == |doneCalls|
      && (forall b :: b in buffering ==> b < buffers)
      && Hooked(registry, buffering)
      && (forall k :: k in settled ==> k < |expected| && doneCalls[k] >= expected[k])
    }

    function Listeners(event: string): seq<Listener> reads this {
      ListenersOf(registry, event)
    }

    constructor()
      ensures Valid()
      ensures registry == map[] && delivered == [] && recorded == []
      ensures buffering == {} && buffers == 0 && expected == [] && doneCalls == [] && settled == {}
    {
      registry := map[];
      delivered := [];
      recorded := [];
      buffering := {};
      buffers := 0;
      expected := [];
      doneCalls := [];
      settled := {};
    }

    /** `on(event, method)`. */
    method On(event: string, id: nat, withContext: bool)
      requires Valid()
      modifies this`registry
      ensures Valid()
      ensures registry == old(registry)[event := old(Listeners(event)) + [Method(id, withContext)]]
    {
      HookedAppend(registry, buffering, event, Method(id, withContext));
      registry := registry[event := Listeners(event) + [Method(id, withContext)]];
    }

    /** Node's `removeListener(event, listener)`. */
    method RemoveListener(event: string, l: Listener)
      requires Valid()
      modifies this`registry
      ensures Valid()
      ensures ListenersOf(registry, event) == RemoveLast(ListenersOf(old(registry), event), l)
      ensures forall e :: e != event ==> ListenersOf(registry, e) == ListenersOf(old(registry), e)
    {
      RemoveLastCount(Listeners(event), l);
      var rest := RemoveLast(Listeners(event), l);
      forall y | y in rest ensures y in Listeners(event) {
        assert y in multiset(rest);
      }
      registry := registry[event := rest];
    }

    /** `emit(event, ...args)`: every listener registered at the time of the
        call, in registration order. */
    method Emit(event: string, args: seq<Arg>)
      requires Valid()
      modifies this`delivered, this`recorded
      ensures Valid()
      ensures delivered == old(delivered) + Deliveries(Listeners(event), args)
      ensures recorded == old(recorded) + Recordings(Listeners(event), event, args)
      ensures forall x :: x in recorded[|old(recorded)|..] ==> x.buffer in buffering
    {
      var ls := Listeners(event);
      var i := 0;
      while i < |ls|
        invariant i <= |ls|
        invariant delivered == old(delivered) + Deliveries(ls[..i], args)
        invariant recorded == old(recorded) + Recordings(ls[..i], event, args)
      {
        assert ls[..i + 1][..i] == ls[..i];
        var l := ls[i];
        if l.Method? {
          delivered := delivered + [Delivery(l.id, ArgsFor(l, args))];
        } else {
          recorded := recorded + [Recorded(l.buffer, event, args)];
        }
        i := i + 1;
      }
      assert ls[..i] == ls;
      RecordingsExactly(ls, event, args);
      forall x | x in recorded[|old(recorded)|..] ensures x.buffer in buffering {
        assert x in Recordings(ls, event, args);
        assert Recorder(x.buffer) in ls;
        assert event in registry;
      }
    }

    /** `bind(object)` (`withContext` false) and `bindAll(object, emitter)`
        (`withContext` true, the emitter appended to every call): each
        `on<Name>` method listens to `<name>` in snake case, in member
        order; other members are not subscribed. */
    method Bind(obj: seq<Member>, withContext: bool)
      requires Valid()
      modifies this`registry
      ensures Valid()
      ensures forall e :: Listeners(e) == old(Listeners(e)) + Handlers(obj, e, withContext)
    {
      var i := 0;
      while i < |obj|
        invariant i <= |obj|
        invariant Valid()
        invariant forall e :: ListenersOf(registry, e) == ListenersOf(old(registry), e) + Handlers(obj[..i], e, withContext)
      {
        var m := obj[i];
        ghost var r := registry;
        if IsHandler(m.name) {
          On(EventOf(m.name), m.id, withContext);
        }
        BindStep(old(registry), r, registry, obj, i, withContext);
        i := i + 1;
      }
      assert obj[..i] == obj;
    }

    /** `emitAsync(event)`: every listener gets a `done` callback; the
        returned promise never resolves in the same turn. */
    method EmitAsync(event: string) returns (call: nat)
      requires Valid()
      modifies this`delivered, this`recorded, this`expected, this`doneCalls
      ensures Valid()
      ensures call == |old(expected)| && call !in settled
      ensures expected == old(expected) + [|Listeners(event)|] && doneCalls == old(doneCalls) + [0]
      ensures delivered == old(delivered) + Deliveries(Listeners(event), [DoneCallback(call)])
      ensures recorded == old(recorded) + Recordings(Listeners(event), event, [DoneCallback(call)])
    {
      call := |expected|;
      expected := expected + [|Listeners(event)|];
      doneCalls := doneCalls + [0];
      Emit(event, [DoneCallback(call)]);
    }

    /** A listener calls the `done` callback of `emitAsync` call `call`. */
    method ListenerDone(call: nat)
      requires Valid() && call < |doneCalls|
      modifies this`doneCalls
      ensures Valid()
      ensures doneCalls == old(doneCalls)[call := old(doneCalls)[call] + 1]
    {
      doneCalls := doneCalls[call := doneCalls[call] + 1];
    }

    /** A turn of the event loop: the continuations of every `emitAsync`
        promise that has heard from all its listeners run. */
    method Turn()
      requires Valid()
      modifies this`settled
      ensures Valid()
      ensures forall k: nat :: k in settled <==> k < |expected| && k < |doneCalls| && doneCalls[k] >= expected[k]
    {
      settled := set k | 0 <= k < |expected| && k < |doneCalls| && doneCalls[k] >= expected[k];
    }

    /** `bufferEvents(emitter, events)`: a recording listener on each event;
        the result names the replay. */
    method BufferEvents(events: seq<string>) returns (b: nat)
      requires Valid()
      modifies this`registry, this`buffering, this`buffers
      ensures Valid()
      ensures b == old(buffers) && buffers == b + 1 && buffering == old(buffering) + {b}
      ensures forall e :: Listeners(e) == old(Listeners(e)) + RecordersFor(events, e, b)
    {
      b := buffers;
      buffers := buffers + 1;
      buffering := buffering + {b};
      var i := 0;
      while i < |events|
        invariant i <= |events|
        invariant b == old(buffers) && buffers == b + 1 && buffering == old(buffering) + {b}
        invariant Valid()
        invariant forall e :: Listeners(e) == old(Listeners(e)) + RecordersFor(events[..i], e, b)
      {
        AddRecorder(events[i], b);
        forall e ensures Listeners(e) == old(Listeners(e)) + RecordersFor(events[..i + 1], e, b) {
          RecordersSnoc(events, i, e, b);
          Assoc(old(Listeners(e)), RecordersFor(events[..i], e, b), if events[i] == e then [Recorder(b)] else []);
        }
        i := i + 1;
      }
      assert events[..i] == events;
    }

    /** One recording listener of buffer `b` appended to `event`. */
    method AddRecorder(event: string, b: nat)
      requires Valid() && b in buffering
      modifies this`registry
      ensures Valid()
      ensures forall e :: Listeners(e) == old(Listeners(e)) + (if e == event then [Recorder(b)] else [])
    {
      HookedAppend(registry, buffering, event, Recorder(b));
      registry := registry[event := Listeners(event) + [Recorder(b)]];
    }

    /** The replay returned by `bufferEvents`: once only, the recording
        listeners are removed, then every recorded emission is dispatched
        again, in order, to the listeners registered now. */
    method Replay(b: nat)
      requires Valid()
      modifies this`registry, this`buffering, this`delivered, this`recorded
      ensures Valid()
      ensures b !in buffering
      ensures b !in old(buffering) ==>
        registry == old(registry) && buffering == old(buffering)
        && delivered == old(delivered) && recorded == old(recorded)
      ensures b in old(buffering) ==>
        registry == Unhook(old(registry), b) && buffering == old(buffering) - {b}
        && delivered == old(delivered) + ReplayDeliveries(registry, RecordedBy(old(recorded), b))
        && recorded == old(recorded) + ReplayRecordings(registry, RecordedBy(old(recorded), b))
    {
      if b !in buffering {
        return;
      }
      HookedUnhook(registry, buffering, b);
      registry := Unhook(registry, b);
      buffering := buffering - {b};
      Dispatch(RecordedBy(recorded, b));
    }

    /** Emits every item of `items` again, in order. */
    method Dispatch(items: seq<Recorded>)
      requires Valid()
      modifies this`delivered, this`recorded
      ensures Valid()
      ensures delivered == old(delivered) + ReplayDeliveries(registry, items)
      ensures recorded == old(recorded) + ReplayRecordings(registry, items)
    {
      var i := 0;
      while i < |items|
        invariant i <= |items|
        invariant Valid()
        invariant delivered == old(delivered) + ReplayDeliveries(registry, items[..i])
        invariant recorded == old(recorded) + ReplayRecordings(registry, items[..i])
      {
        Emit(items[i].event, items[i].args);
        ReplaySnoc(registry, items, i, old(delivered), old(recorded));
        i := i + 1;
      }
      assert items[..i] == items;
    }
  }
}
