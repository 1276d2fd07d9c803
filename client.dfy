/** The module registry and the keyboard handler (client/src/client.rs).
    Calls into a module's behaviour (`on_start`, `on_stop`, `on_tick`) are
    recorded as events, in the order the client makes them. The order in
    which the registry's hash map hands out its modules, and whether a key
    is down, are inputs. */
module Client {

  import opened Results
  import opened Modules
  import Strings

  datatype Event = OnStart(name: string) | OnStop(name: string) | OnTick(name: string)

  /** No name is listed twice, as when iterating over a hash map. */
  predicate Distinct(order: seq<string>)
  {
    forall i, j :: 0 <= i < j < |order| ==> order[i] != order[j]
  }

  /** Dropping the last name of a list without repeats leaves a list
      without repeats that does not hold that name. */
  lemma DistinctInit(order: seq<string>)
    requires Distinct(order) && order != []
    ensures Distinct(order[..|order| - 1]) && order[|order| - 1] !in order[..|order| - 1]
  {
    var init := order[..|order| - 1];
    forall j | 0 <= j < |init| ensures init[j] != order[|order| - 1] {
      assert init[j] == order[j];
    }
    forall a, b | 0 <= a < b < |init| ensures init[a] != init[b] {
      assert init[a] == order[a] && init[b] == order[b];
    }
  }

  /** The `on_tick` calls of one tick: the enabled modules, in iteration
      order. */
  function TickEvents(order: seq<string>, enabled: map<string, bool>): seq<Event>
    requires forall n :: n in order ==> n in enabled
  {
    if order == [] then []
    else
      var n := order[|order| - 1];
      assert forall m :: m in order[..|order| - 1] ==> m in order;
      TickEvents(order[..|order| - 1], enabled) + (if enabled[n] then [OnTick(n)] else [])
  }

  /** One more module of the iteration order adds at most its own call. */
  lemma TickStep(order: seq<string>, enabled: map<string, bool>, i: nat)
    requires i < |order| && forall n :: n in order ==> n in enabled
    ensures forall n :: n in order[..i] ==> n in enabled
    ensures TickEvents(order[..i + 1], enabled)
         == TickEvents(order[..i], enabled) + (if enabled[order[i]] then [OnTick(order[i])] else [])
  {
    assert order[..i + 1][..i] == order[..i];
  }

  /** A tick calls `on_tick` on exactly the enabled modules, and makes no
      other call. */
  lemma {:induction false} TickCalls(order: seq<string>, enabled: map<string, bool>, e: Event)
    requires forall n :: n in order ==> n in enabled
    ensures e in TickEvents(order, enabled) <==> e.OnTick? && e.name in order && enabled[e.name]
  {
    if order != [] {
      var init := order[..|order| - 1];
      assert forall m :: m in init ==> m in order;
      TickCalls(init, enabled, e);
      assert order == init + [order[|order| - 1]];
    }
  }

  /** The last module of the order adds one call to itself when enabled,
      and none to any other module. */
  lemma TickCountStep(order: seq<string>, enabled: map<string, bool>, n: string)
    requires order != [] && forall m :: m in order ==> m in enabled
    ensures forall m :: m in order[..|order| - 1] ==> m in enabled
    ensures multiset(TickEvents(order, enabled))[OnTick(n)]
         == multiset(TickEvents(order[..|order| - 1], enabled))[OnTick(n)]
            + (if n == order[|order| - 1] && enabled[n] then 1 else 0)
  {
    var init, last := order[..|order| - 1], order[|order| - 1];
    assert forall m :: m in init ==> m in order;
    var tail := if enabled[last] then [OnTick(last)] else [];
    assert TickEvents(order, enabled) == TickEvents(init, enabled) + tail;
    assert multiset(TickEvents(init, enabled) + tail)
        == multiset(TickEvents(init, enabled)) + multiset(tail);
  }

  /** Each enabled module is ticked exactly once, the others never. */
  lemma {:induction false} TickOnce(order: seq<string>, enabled: map<string, bool>, n: string)
    requires forall m :: m in order ==> m in enabled
    requires Distinct(order)
    ensures multiset(TickEvents(order, enabled))[OnTick(n)] == if n in order && enabled[n] then 1 else 0
  {
    if order != [] {
      var init, last := order[..|order| - 1], order[|order| - 1];
      TickCountStep(order, enabled, n);
      DistinctInit(order);
      TickOnce(init, enabled, n);
      assert n in order <==> n in init || n == last by {
        assert order == init + [last];
      }
    }
  }

  /** The registry of modules, by name. */
  class DarkClient {
    var modules: map<string, ModuleData>
    var events: seq<Event>

    /** Every module is filed under its own name, so different names hold
        different modules. */
    predicate Valid()
      reads this`modules, modules.Values
    {
      forall n :: n in modules ==> modules[n].name == n
    }

    /** The enabled flag of every registered module. */
    function Enabled(): (r: map<string, bool>)
      reads this`modules, modules.Values
      ensures r.Keys == modules.Keys
    {
      map n | n in modules :: modules[n].enabled
    }

    /** The key every registered module is bound to. */
    function Bindings(): (r: map<string, KeyboardKey>)
      reads this`modules, modules.Values
      ensures r.Keys == modules.Keys
    {
      map n | n in modules :: modules[n].keyBind
    }

    constructor ()
      ensures modules == map[] && events == [] && Valid()
    {
      modules := map[];
      events := [];
    }

    /** Files a module under its name, replacing any module of that name. */
    method RegisterModule(m: ModuleData)
      requires Valid()
      modifies this
      ensures Valid()
      ensures modules == old(modules)[m.name := m] && events == old(events)
    {
      modules := modules[m.name := m];
    }

    /** Sets the flag of the module filed under `n`, through the registry's
        handle on it. */
    method SetModuleEnabled(n: string, on: bool)
      requires Valid() && n in modules
      modifies modules[n]
      ensures Valid() && Bindings() == old(Bindings())
      ensures Enabled() == old(Enabled())[n := on]
    {
      var m := modules[n];
      m.SetEnabled(on);
      forall p | p in modules
        ensures modules[p].name == p
        ensures modules[p].keyBind == old(modules[p].keyBind)
        ensures modules[p].enabled == if p == n then on else old(modules[p].enabled)
      {
        if p != n {
          assert modules[p] != m;
        }
      }
    }

    /** `on_tick` on every enabled module, in the order the module map is
        iterated. */
    method Tick(order: seq<string>)
      requires forall n :: n in order ==> n in modules
      modifies this`events
      ensures events == old(events) + TickEvents(order, Enabled())
    {
      ghost var enabled := Enabled();
      var i := 0;
      while i < |order|
        invariant 0 <= i <= |order|
        invariant events == old(events) + TickEvents(order[..i], enabled)
      {
        var n := order[i];
        TickStep(order, enabled, i);
        assert enabled[n] == modules[n].enabled;
        if modules[n].enabled {
          events := events + [OnTick(n)];
        }
        i := i + 1;
      }
      assert order[..|order|] == order;
    }
  }

  /** What one poll of the keyboard handler reads and writes: the modules'
      enabled flags, the set of key tokens seen down and not yet released,
      and the calls made so far. */
  datatype PollState = PollState(enabled: map<string, bool>, pressed: set<int>, events: seq<Event>)

  /** One module's turn in a poll. A key that is down and not yet pressed
      is added to the set and toggles the module, calling `on_start` when
      the module becomes enabled and `on_stop` otherwise; a key that is up
      is removed from the set. */
  function PollStep(s: PollState, n: string, key: int, isDown: bool): (r: PollState)
    requires n in s.enabled
    ensures r.enabled.Keys == s.enabled.Keys
  {
    if !isDown then s.(pressed := s.pressed - {key})
    else if key in s.pressed then s
    else
      var on := !s.enabled[n];
      PollState(s.enabled[n := on], s.pressed + {key}, s.events + [if on then OnStart(n) else OnStop(n)])
  }

  /** A module's turn changes no other module's flag, and makes at most
      one call, at the end. */
  lemma PollStepFrame(s: PollState, n: string, key: int, isDown: bool, m: string)
    requires n in s.enabled && m in s.enabled && m != n
    ensures var r := PollStep(s, n, key, isDown);
      r.enabled[m] == s.enabled[m]
      && (r.events == s.events || r.events == s.events + [r.events[|s.events|]])
  {
  }

  /** A whole poll: every module's turn, in iteration order, with the token
      of the key the module is bound to. */
  function PollAll(s: PollState, order: seq<string>, keyOf: map<string, KeyboardKey>, down: int -> bool): (r: PollState)
    requires forall n :: n in order ==> n in s.enabled && n in keyOf
    ensures r.enabled.Keys == s.enabled.Keys
  {
    if order == [] then s
    else
      var n := order[|order| - 1];
      assert forall m :: m in order[..|order| - 1] ==> m in order;
      var key := Code(keyOf[n]);
      PollStep(PollAll(s, order[..|order| - 1], keyOf, down), n, key, down(key))
  }

  /** A poll of a prefix one name longer is one more module's turn. */
  lemma PollAllStep(s: PollState, order: seq<string>, keyOf: map<string, KeyboardKey>, down: int -> bool, i: nat)
    requires forall n :: n in order ==> n in s.enabled && n in keyOf
    requires i < |order|
    ensures forall n :: n in order[..i] ==> n in s.enabled && n in keyOf
    ensures var key := Code(keyOf[order[i]]);
      PollAll(s, order[..i + 1], keyOf, down) == PollStep(PollAll(s, order[..i], keyOf, down), order[i], key, down(key))
  {
    assert order[..i + 1][..i] == order[..i];
    assert forall n :: n in order[..i] ==> n in order;
  }

  /** Some module in `order` is bound to the key with token `k`. */
  predicate Bound(order: seq<string>, keyOf: map<string, KeyboardKey>, k: int)
    requires forall n :: n in order ==> n in keyOf
  {
    exists n :: n in order && Code(keyOf[n]) == k
  }

  /** After a poll, a key bound to some module is in the pressed set
      exactly when it is down; any other key keeps its membership. */
  lemma {:induction false} PressedAfterPoll(s: PollState, order: seq<string>, keyOf: map<string, KeyboardKey>,
                                            down: int -> bool, k: int)
    requires forall n :: n in order ==> n in s.enabled && n in keyOf
    ensures k in PollAll(s, order, keyOf, down).pressed
      <==> if Bound(order, keyOf, k) then down(k) else k in s.pressed
  {
    if order != [] {
      var init, n := order[..|order| - 1], order[|order| - 1];
      assert order == init + [n];
      assert forall m :: m in init ==> m in order;
      PressedAfterPoll(s, init, keyOf, down, k);
      assert Bound(order, keyOf, k) <==> Bound(init, keyOf, k) || Code(keyOf[n]) == k;
    }
  }

  /** A module not visited keeps its flag. */
  lemma {:induction false} Unvisited(s: PollState, order: seq<string>, keyOf: map<string, KeyboardKey>,
                                     down: int -> bool, n: string)
    requires forall m :: m in order ==> m in s.enabled && m in keyOf
    requires n in s.enabled && n !in order
    ensures PollAll(s, order, keyOf, down).enabled[n] == s.enabled[n]
  {
    if order != [] {
      var init := order[..|order| - 1];
      assert forall m :: m in init ==> m in order;
      Unvisited(s, init, keyOf, down, n);
    }
  }

  /** A poll toggles a module exactly when its key is down, was not
      pressed before the poll, and no module visited earlier in the same
      poll is bound to the same key. */
  lemma {:induction false} ToggleIff(s: PollState, order: seq<string>, keyOf: map<string, KeyboardKey>,
                                     down: int -> bool, i: nat)
    requires forall n :: n in order ==> n in s.enabled && n in keyOf
    requires Distinct(order) && i < |order|
    ensures var n := order[i]; var key := Code(keyOf[n]);
      PollAll(s, order, keyOf, down).enabled[n] != s.enabled[n]
      <==> down(key) && key !in s.pressed && !Bound(order[..i], keyOf, key)
  {
    var init, last := order[..|order| - 1], order[|order| - 1];
    assert forall m :: m in init ==> m in order;
    if i == |order| - 1 {
      assert init == order[..i];
      DistinctInit(order);
      Unvisited(s, init, keyOf, down, last);
      PressedAfterPoll(s, init, keyOf, down, Code(keyOf[last]));
    } else {
      assert order[i] != last;
      DistinctInit(order);
      assert init[..i] == order[..i];
      ToggleIff(s, init, keyOf, down, i);
    }
  }

  /** Of several modules bound to one key, a poll toggles only the first
      one visited. */
  lemma OnlyFirstToggles(s: PollState, order: seq<string>, keyOf: map<string, KeyboardKey>,
                         down: int -> bool, i: nat, j: nat)
    requires forall n :: n in order ==> n in s.enabled && n in keyOf
    requires Distinct(order) && i < j < |order| && keyOf[order[i]] == keyOf[order[j]]
    ensures PollAll(s, order, keyOf, down).enabled[order[j]] == s.enabled[order[j]]
  {
    ToggleIff(s, order, keyOf, down, j);
    assert order[..j][i] == order[i];
  }

  /** With every key that is down already pressed, a poll toggles nothing
      and calls nothing. */
  lemma {:induction false} HeldKeysDoNothing(t: PollState, order: seq<string>, keyOf: map<string, KeyboardKey>,
                                             down: int -> bool)
    requires forall n :: n in order ==> n in t.enabled && n in keyOf
    requires forall n :: n in order && down(Code(keyOf[n])) ==> Code(keyOf[n]) in t.pressed
    ensures PollAll(t, order, keyOf, down).enabled == t.enabled
    ensures PollAll(t, order, keyOf, down).events == t.events
  {
    if order != [] {
      var init, n := order[..|order| - 1], order[|order| - 1];
      assert forall m :: m in init ==> m in order;
      HeldKeysDoNothing(t, init, keyOf, down);
      PressedAfterPoll(t, init, keyOf, down, Code(keyOf[n]));
    }
  }

  /** While the keys stay as they are, polling again toggles nothing: a
      key held down toggles its module once. */
  lemma RepeatedPoll(s: PollState, order: seq<string>, keyOf: map<string, KeyboardKey>, down: int -> bool)
    requires forall n :: n in order ==> n in s.enabled && n in keyOf
    ensures var s1 := PollAll(s, order, keyOf, down);
      PollAll(s1, order, keyOf, down).enabled == s1.enabled
      && PollAll(s1, order, keyOf, down).events == s1.events
  {
    var s1 := PollAll(s, order, keyOf, down);
    forall n | n in order && down(Code(keyOf[n])) ensures Code(keyOf[n]) in s1.pressed {
      PressedAfterPoll(s, order, keyOf, down, Code(keyOf[n]));
    }
    HeldKeysDoNothing(s1, order, keyOf, down);
  }

  /** Releasing a key and pressing it again toggles the first module bound
      to it once more. */
  lemma ReleaseThenPress(s: PollState, order: seq<string>, keyOf: map<string, KeyboardKey>,
                         up: int -> bool, down: int -> bool, i: nat)
    requires forall n :: n in order ==> n in s.enabled && n in keyOf
    requires Distinct(order) && i < |order|
    requires !up(Code(keyOf[order[i]])) && down(Code(keyOf[order[i]]))
    requires !Bound(order[..i], keyOf, Code(keyOf[order[i]]))
    ensures var s1 := PollAll(s, order, keyOf, up);
      PollAll(s1, order, keyOf, down).enabled[order[i]] != s1.enabled[order[i]]
  {
    var key := Code(keyOf[order[i]]);
    PressedAfterPoll(s, order, keyOf, up, key);
    ToggleIff(PollAll(s, order, keyOf, up), order, keyOf, down, i);
  }

  /** A poll only appends calls. */
  lemma {:induction false} PollExtendsEvents(s: PollState, order: seq<string>, keyOf: map<string, KeyboardKey>,
                                             down: int -> bool)
    requires forall n :: n in order ==> n in s.enabled && n in keyOf
    ensures var r := PollAll(s, order, keyOf, down);
      |s.events| <= |r.events| && r.events[..|s.events|] == s.events
  {
    if order != [] {
      var init := order[..|order| - 1];
      assert forall m :: m in init ==> m in order;
      PollExtendsEvents(s, init, keyOf, down);
    }
  }

  /** Every call a poll makes is `on_start` or `on_stop` for a module it
      toggled: `on_start` exactly when the module ends up enabled. */
  lemma {:induction false} PollEventsSound(s: PollState, order: seq<string>, keyOf: map<string, KeyboardKey>,
                                           down: int -> bool, k: nat)
    requires forall n :: n in order ==> n in s.enabled && n in keyOf
    requires Distinct(order)
    requires |s.events| <= k < |PollAll(s, order, keyOf, down).events|
    ensures var r := PollAll(s, order, keyOf, down); var e := r.events[k];
      e.name in order && !e.OnTick? && e.OnStart? == r.enabled[e.name]
      && r.enabled[e.name] != s.enabled[e.name]
  {
    var init, last := order[..|order| - 1], order[|order| - 1];
    assert forall m :: m in init ==> m in order;
    DistinctInit(order);
    var p := PollAll(s, init, keyOf, down);
    PollExtendsEvents(s, init, keyOf, down);
    if k < |p.events| {
      PollEventsSound(s, init, keyOf, down, k);
      assert p.events[k].name != last;
    } else {
      Unvisited(s, init, keyOf, down, last);
    }
  }

  /** Every module a poll toggles gets its call: `on_start` if it ends up
      enabled, `on_stop` otherwise. */
  lemma {:induction false} PollEventsComplete(s: PollState, order: seq<string>, keyOf: map<string, KeyboardKey>,
                                              down: int -> bool, n: string)
    requires forall m :: m in order ==> m in s.enabled && m in keyOf
    requires Distinct(order) && n in order
    requires PollAll(s, order, keyOf, down).enabled[n] != s.enabled[n]
    ensures var r := PollAll(s, order, keyOf, down);
      |s.events| <= |r.events|
      && (if r.enabled[n] then OnStart(n) else OnStop(n)) in r.events[|s.events|..]
  {
    var init, last := order[..|order| - 1], order[|order| - 1];
    assert forall m :: m in init ==> m in order;
    DistinctInit(order);
    var p := PollAll(s, init, keyOf, down);
    var r := PollAll(s, order, keyOf, down);
    PollExtendsEvents(s, init, keyOf, down);
    if n == last {
      Unvisited(s, init, keyOf, down, last);
      assert r.events == p.events + [if r.enabled[n] then OnStart(n) else OnStop(n)];
      Strings.DropAppend(p.events, [if r.enabled[n] then OnStart(n) else OnStop(n)], |s.events|);
    } else {
      assert n in init;
      var key := Code(keyOf[last]);
      PollStepFrame(p, last, key, down(key), n);
      PollEventsComplete(s, init, keyOf, down, n);
      if r.events != p.events {
        Strings.DropAppend(p.events, [r.events[|p.events|]], |s.events|);
      }
    }
  }

  /** The `RUNNING` flag: unset, or set to a value. */
  type RunFlag = Option<bool>

  /** `start_keyboard_handler` sets the flag only if it was never set. */
  function Started(f: RunFlag): RunFlag
  {
    if f.None? then Some(true) else f
  }

  /** `stop_keyboard_handler` does nothing to an unset flag and clears a
      set one. */
  function Stopped(f: RunFlag): RunFlag
  {
    if f.None? then None else Some(false)
  }

  /** A sequence of calls to the start (`true`) and stop (`false`)
      functions, applied in order. */
  function Replay(f: RunFlag, calls: seq<bool>): RunFlag
    decreases |calls|
  {
    if calls == [] then f
    else Replay(if calls[0] then Started(f) else Stopped(f), calls[1..])
  }

  /** Stopping is final: once the handler has been started and stopped,
      no sequence of starts and stops sets the flag to true again, so no
      new polling thread ever polls. Before the first start, stopping does
      nothing and a later start runs. */
  lemma {:induction false} StopIsFinal(f: RunFlag, calls: seq<bool>)
    ensures Replay(Stopped(Started(f)), calls) == Some(false)
    ensures Replay(Stopped(None), [true]) == Some(true)
    decreases |calls|
  {
    if calls != [] {
      assert Started(Some(false)) == Some(false) && Stopped(Some(false)) == Some(false);
      StopIsFinal(f, calls[1..]);
    }
  }

  /** The keyboard handler: the `RUNNING` flag and the polling thread's set
      of pressed keys. */
  class KeyboardHandler {
    var running: RunFlag
    var pressed: set<int>

    constructor ()
      ensures running == None && pressed == {}
    {
      running := None;
      pressed := {};
    }

    /** Sets the flag if it was unset, and starts a polling thread with an
        empty set of pressed keys. */
    method Start()
      modifies this
      ensures running == Started(old(running)) && pressed == {}
    {
      if running.None? {
        running := Some(true);
      }
      pressed := {};
    }

    method Stop()
      modifies this`running
      ensures running == Stopped(old(running))
    {
      if running.None? {
        return;
      }
      running := Some(false);
    }

    /** One module's turn in a poll. */
    method Visit(client: DarkClient, n: string, down: int -> bool)
      requires client.Valid() && n in client.modules
      modifies this`pressed, client`events, client.modules[n]
      ensures client.Valid() && client.Bindings() == old(client.Bindings())
      ensures var key := Code(old(client.modules[n].keyBind));
        PollState(client.Enabled(), pressed, client.events)
        == PollStep(PollState(old(client.Enabled()), old(pressed), old(client.events)), n, key, down(key))
    {
      var m := client.modules[n];
      var key := Code(m.keyBind);
      ghost var s0 := PollState(client.Enabled(), pressed, client.events);
      if down(key) {
        if key !in pressed {
          pressed := pressed + {key};
          var on := !m.enabled;
          assert on == !s0.enabled[n];
          client.events := client.events + [if on then OnStart(n) else OnStop(n)];
          assert client.Enabled() == s0.enabled;
          client.SetModuleEnabled(n, on);
          assert client.Enabled() == s0.enabled[n := on];
          assert PollState(client.Enabled(), pressed, client.events) == PollStep(s0, n, key, true);
        }
      } else {
        pressed := pressed - {key};
        assert PollState(client.Enabled(), pressed, client.events) == PollStep(s0, n, key, false);
      }
    }

    /** One pass of the polling loop, made only while the flag is set to
        true: each module's key is looked up, in iteration order. */
    method Poll(client: DarkClient, order: seq<string>, down: int -> bool) returns (polled: bool)
      requires client.Valid() && forall n :: n in order ==> n in client.modules
      modifies this`pressed, client`events, client.modules.Values
      ensures polled == (running == Some(true))
      ensures client.Valid() && client.Bindings() == old(client.Bindings())
      ensures var before := PollState(old(client.Enabled()), old(pressed), old(client.events));
        PollState(client.Enabled(), pressed, client.events)
        == if polled then PollAll(before, order, old(client.Bindings()), down) else before
    {
      polled := running == Some(true);
      if !polled {
        return;
      }
      ghost var before := PollState(client.Enabled(), pressed, client.events);
      ghost var keyOf := client.Bindings();
      var i := 0;
      while i < |order|
        invariant 0 <= i <= |order|
        invariant client.Valid() && client.Bindings() == keyOf
        invariant PollState(client.Enabled(), pressed, client.events) == PollAll(before, order[..i], keyOf, down)
      {
        PollAllStep(before, order, keyOf, down, i);
        Visit(client, order[i], down);
        i := i + 1;
      }
      assert order[..|order|] == order;
    }
  }
}
