/** karma's `EmitterWrapper` (exercised by `test/unit/emitter_wrapper.spec.js`):
    a view of a shared emitter that remembers the listeners added through
    it, so that `removeAllListeners` takes out those and only those. */
module EmitterWrapper {
  import opened Wrappers
  import opened Events

  /** `s` after `removeListener` of each of `ws`, first to last. */
  function RemoveEach(s: seq<Listener>, ws: seq<Listener>): seq<Listener>
    decreases |ws|
  {
    if ws == [] then s
    else RemoveLast(RemoveEach(s, ws[..|ws| - 1]), ws[|ws| - 1])
  }

  lemma RemoveEachSnoc(s: seq<Listener>, ws: seq<Listener>, i: nat)
    requires i < |ws|
    ensures RemoveEach(s, ws[..i + 1]) == RemoveLast(RemoveEach(s, ws[..i]), ws[i])
  {
    assert ws[..i + 1][..i] == ws[..i];
  }

  /** Removing `ws` takes out one occurrence per entry of `ws` and nothing
      else. */
  lemma {:induction false} RemoveEachCount(s: seq<Listener>, ws: seq<Listener>)
    ensures multiset(RemoveEach(s, ws)) == multiset(s) - multiset(ws)
    decreases |ws|
  {
    if ws != [] {
      var init := ws[..|ws| - 1];
      RemoveEachCount(s, init);
      var x := ws[|ws| - 1];
      RemoveLastCount(RemoveEach(s, init), x);
      assert ws == init + [x];
      assert multiset(ws) == multiset(init) + multiset{x};
      MultisetMinusTwice(multiset(s), multiset(init), multiset{x});
    }
  }

  lemma MultisetMinusTwice(a: multiset<Listener>, b: multiset<Listener>, c: multiset<Listener>)
    ensures a - b - c == a - (b + c)
  {
    forall y ensures (a - b - c)[y] == (a - (b + c))[y] {
    }
  }

  /** What the wrapper recorded per event is still registered in `r`. */
  ghost predicate Tracked(added: map<string, seq<Listener>>, r: Registry) {
    forall e :: e in added ==> multiset(added[e]) <= multiset(ListenersOf(r, e))
  }

  lemma TrackedAppend(added: map<string, seq<Listener>>, r: Registry, event: string, l: Listener)
    requires Tracked(added, r)
    ensures Tracked(added[event := ListenersOf(added, event) + [l]], r[event := ListenersOf(r, event) + [l]])
  {
    var a := ListenersOf(added, event);
    var ls := ListenersOf(r, event);
    assert multiset(a) <= multiset(ls);
    assert multiset(a + [l]) == multiset(a) + multiset{l};
    assert multiset(ls + [l]) == multiset(ls) + multiset{l};
  }

  lemma TrackedDrop(added: map<string, seq<Listener>>, r: Registry, r': Registry, event: string)
    requires Tracked(added, r)
    requires forall e :: e != event ==> ListenersOf(r', e) == ListenersOf(r, e)
    ensures Tracked(added - {event}, r')
  {
  }

  /** A listener some other code attached survives, and a listener attached
      only through the wrapper is gone. */
  lemma RemoveEachKeepsOthers(s: seq<Listener>, ws: seq<Listener>, l: Listener)
    ensures l in s && l !in ws ==> l in RemoveEach(s, ws)
    ensures multiset(s)[l] <= multiset(ws)[l] ==> l !in RemoveEach(s, ws)
  {
    RemoveEachCount(s, ws);
    if l in s && l !in ws {
      assert l in multiset(RemoveEach(s, ws));
    }
    if multiset(s)[l] <= multiset(ws)[l] {
      assert multiset(RemoveEach(s, ws))[l] == 0;
    }
  }

  /** The events `removeAllListeners(event)` clears. */
  function Chosen(event: Option<string>, added: map<string, seq<Listener>>): set<string> {
    if event.None? then added.Keys else {event.value}
  }

  /** The listeners of `e` once the wrapper's records for `cleared` are
      removed from `before`. */
  function Remaining(before: seq<Listener>, added: map<string, seq<Listener>>, e: string, cleared: set<string>): seq<Listener> {
    if e in added && e in cleared then RemoveEach(before, added[e]) else before
  }

  /** One event of `removeAllListeners`: clearing `e` next. */
  lemma RemainingStep(r0: Registry, r: Registry, r': Registry, a0: map<string, seq<Listener>>, done: set<string>, e: string)
    requires e in a0 && e !in done
    requires forall x :: ListenersOf(r, x) == Remaining(ListenersOf(r0, x), a0, x, done)
    requires ListenersOf(r', e) == RemoveEach(ListenersOf(r, e), a0[e])
    requires forall x :: x != e ==> ListenersOf(r', x) == ListenersOf(r, x)
    ensures forall x :: ListenersOf(r', x) == Remaining(ListenersOf(r0, x), a0, x, done + {e})
  {
    forall x ensures ListenersOf(r', x) == Remaining(ListenersOf(r0, x), a0, x, done + {e}) {
      if x == e {
        assert ListenersOf(r, e) == ListenersOf(r0, e);
      } else {
        assert ListenersOf(r', x) == ListenersOf(r, x);
      }
    }
  }

  class Wrapper {
    const emitter: EventEmitter
    var added: map<string, seq<Listener>>   // `this.listeners`: per event, what was added here

    /** What the wrapper added is still registered on the emitter. */
    ghost predicate Valid() reads this, emitter {
      && emitter.Valid()
      && Tracked(added, emitter.registry)
    }

    constructor(emitter: EventEmitter)
      requires emitter.Valid()
      ensures Valid()
      ensures this.emitter == emitter && added == map[]
    {
      this.emitter := emitter;
      added := map[];
    }

    /** `addListener(event, listener)` (alias `on`): registers on the
        emitter, remembers it, and returns the wrapper. */
    method AddListener(event: string, id: nat) returns (w: Wrapper)
      requires Valid()
      modifies this`added, emitter`registry
      ensures Valid()
      ensures w == this
      ensures emitter.Listeners(event) == old(emitter.Listeners(event)) + [Method(id, false)]
      ensures forall e :: e != event ==> emitter.Listeners(e) == old(emitter.Listeners(e))
      ensures added == old(added)[event := ListenersOf(old(added), event) + [Method(id, false)]]
    {
      TrackedAppend(added, emitter.registry, event, Method(id, false));
      emitter.On(event, id, false);
      added := added[event := ListenersOf(added, event) + [Method(id, false)]];
      w := this;
    }

    /** `removeAllListeners(event)`: for `None` every event the wrapper
        touched, otherwise only `event`; each listener it added is removed
        from the emitter and its record dropped. A name it never added to
        has no record, and the source then fails on `undefined.forEach`:
        `ok` is false and nothing changes. */
    method RemoveAllListeners(event: Option<string>) returns (ok: bool, w: Wrapper)
      requires Valid()
      modifies this`added, emitter`registry
      ensures Valid()
      ensures w == this
      ensures ok <==> event.None? || event.value in old(added)
      ensures !ok ==> added == old(added) && emitter.registry == old(emitter.registry)
      ensures ok ==> forall e ::
        ListenersOf(emitter.registry, e) == Remaining(ListenersOf(old(emitter.registry), e), old(added), e, Chosen(event, old(added)))
      ensures ok && event.None? ==> added == map[]
      ensures ok && event.Some? ==> added == old(added) - {event.value}
    {
      w := this;
      if event.Some? && event.value !in added {
        return false, w;
      }
      ok := true;
      if event.None? {
        ClearAll();
      } else {
        ClearEvent(event.value);
      }
    }

    /** `removeAllListeners()`: every event the wrapper added to. */
    method ClearAll()
      requires Valid()
      modifies this`added, emitter`registry
      ensures Valid()
      ensures added == map[]
      ensures forall e ::
        ListenersOf(emitter.registry, e) == Remaining(ListenersOf(old(emitter.registry), e), old(added), e, old(added).Keys)
    {
      ghost var r0 := emitter.registry;
      ghost var a0 := added;
      ghost var done: set<string> := {};
      while added != map[]
        invariant emitter.Valid()
        invariant done <= a0.Keys
        invariant forall x :: x in added <==> x in a0 && x !in done
        invariant forall x :: x in added ==> added[x] == a0[x]
        invariant forall e ::
          ListenersOf(emitter.registry, e) == Remaining(ListenersOf(r0, e), a0, e, done)
        decreases |added|
      {
        var e :| e in added;
        ghost var r := emitter.registry;
        ClearEvent(e);
        RemainingStep(r0, r, emitter.registry, a0, done, e);
        done := done + {e};
      }
      assert done == a0.Keys;
    }

    /** One event of `removeAllListeners`: its recorded listeners leave the
        emitter and the record is deleted. */
    method ClearEvent(event: string)
      requires emitter.Valid() && event in added
      modifies this`added, emitter`registry
      ensures emitter.Valid()
      ensures Tracked(old(added), old(emitter.registry)) ==> Tracked(added, emitter.registry)
      ensures added == old(added) - {event}
      ensures ListenersOf(emitter.registry, event) == RemoveEach(ListenersOf(old(emitter.registry), event), old(added)[event])
      ensures forall e :: e != event ==> ListenersOf(emitter.registry, e) == ListenersOf(old(emitter.registry), e)
    {
      ghost var r := emitter.registry;
      Detach(event, added[event]);
      if Tracked(added, r) {
        TrackedDrop(added, r, emitter.registry, event);
      }
      added := added - {event};
    }

    /** Removes each of `ls` from `event` on the emitter, in order. */
    method Detach(event: string, ls: seq<Listener>)
      requires emitter.Valid()
      modifies emitter`registry
      ensures emitter.Valid()
      ensures ListenersOf(emitter.registry, event) == RemoveEach(ListenersOf(old(emitter.registry), event), ls)
      ensures forall e :: e != event ==> ListenersOf(emitter.registry, e) == ListenersOf(old(emitter.registry), e)
    {
      ghost var r0 := emitter.registry;
      var i := 0;
      while i < |ls|
        invariant i <= |ls|
        invariant emitter.Valid()
        invariant ListenersOf(emitter.registry, event) == RemoveEach(ListenersOf(r0, event), ls[..i])
        invariant forall e :: e != event ==> ListenersOf(emitter.registry, e) == ListenersOf(r0, e)
      {
        emitter.RemoveListener(event, ls[i]);
        RemoveEachSnoc(ListenersOf(r0, event), ls, i);
        i := i + 1;
      }
      assert ls[..i] == ls;
    }
  }
}
