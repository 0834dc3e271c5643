/** `tui::Event`: what the terminal loop hands to the application. */
module TuiEvents {
  import opened Ints
  import opened Keys

  datatype Event =
    | Quit
    | Tick
    | Render
    | Resize(width: U16, height: U16)
    | Key(key: KeyEvent)
    | Other  // focus, paste, mouse and the like: no action of their own
}

/**
 * The state machine of `App::run` in `src/app.rs`, as functions on values: key
 * resolution against the active mode's keybinding table, the engine's own
 * reaction to engine actions, the fan-out of every action to the components in
 * order, the first-in first-out drain of the action bus, and the suspend/quit
 * decision after a drain. Components are abstract: each is a state together with
 * an update function that may emit one follow-up action.
 */
module Dispatch {
  import opened Wrappers
  import opened Keys
  import Modes
  import opened Actions
  import TuiEvents

  /** A component's answer to one message: its new state and at most one action to send. */
  datatype Reaction<C> = Reaction(next: C, emitted: Option<Action>)

  /** One mode's table from key sequences to actions. */
  type Keymap = map<seq<KeyEvent>, Action>

  /** `config.keybindings`: a table per mode; a mode may have none. */
  type Keybindings = map<Modes.Mode, Keymap>

  /** The fields of `App` that the loop itself updates. */
  datatype LoopState = LoopState(
    mode: Modes.Mode,
    shouldQuit: bool,
    shouldSuspend: bool,
    keys: seq<KeyEvent>)  // `last_tick_key_events`

  /** `App::new`: the main menu, neither quitting nor suspended, no keys buffered. */
  const Initial := LoopState(Modes.MainMenu, false, false, [])

  /** The components, the loop state and the pending actions on the bus. */
  datatype DrainState<C> = DrainState(loop: LoopState, comps: seq<C>, queue: seq<Action>)

  datatype Outcome =
    | Continue
    | Exit
    | Stalled  // the drain used up its fuel with actions still queued

  /** The key buffer after a key press and the action the press sends, if any. */
  datatype Resolution = Resolution(keys: seq<KeyEvent>, emitted: Option<Action>)

  /**
   * The `Event::Key` arm: a key bound on its own sends its action and leaves the
   * buffer alone; any other key joins the buffer, and the action bound to the
   * whole buffer, if there is one, is sent. A match does not clear the buffer.
   */
  function ResolveKey(kb: Keybindings, mode: Modes.Mode, keys: seq<KeyEvent>, key: KeyEvent): (r: Resolution)
    ensures mode !in kb ==> r == Resolution(keys, None)
    ensures mode in kb && [key] in kb[mode] ==> r == Resolution(keys, Some(kb[mode][[key]]))
    ensures mode in kb && [key] !in kb[mode] ==>
      r.keys == keys + [key] && (r.emitted.Some? <==> r.keys in kb[mode])
      && (r.emitted.Some? ==> r.emitted.value == kb[mode][r.keys])
  {
    if mode !in kb then Resolution(keys, None)
    else if [key] in kb[mode] then Resolution(keys, Some(kb[mode][[key]]))
    else
      var buffer := keys + [key];
      Resolution(buffer, if buffer in kb[mode] then Some(kb[mode][buffer]) else None)
  }

  /** A run of key presses: the final buffer and every action sent, in order. */
  function PressAll(kb: Keybindings, mode: Modes.Mode, keys: seq<KeyEvent>, presses: seq<KeyEvent>): Resolution2
    decreases |presses|
  {
    if presses == [] then Resolution2(keys, [])
    else
      var before := PressAll(kb, mode, keys, presses[..|presses| - 1]);
      var r := ResolveKey(kb, mode, before.keys, presses[|presses| - 1]);
      Resolution2(r.keys, before.sent + OptionToSeq(r.emitted))
  }

  /** The buffer and the actions sent after several key presses. */
  datatype Resolution2 = Resolution2(keys: seq<KeyEvent>, sent: seq<Action>)

  /**
   * Typing a chord none of whose keys is bound on its own and none of whose proper
   * prefixes (after what was buffered) is bound sends at most one action, the one
   * bound to the whole buffer, and leaves the whole chord in the buffer.
   */
  lemma {:induction false} ChordResolves(kb: Keybindings, mode: Modes.Mode, keys: seq<KeyEvent>, chord: seq<KeyEvent>)
    requires mode in kb
    requires forall j :: 0 <= j < |chord| ==> [chord[j]] !in kb[mode]
    requires forall j :: 0 < j < |chord| ==> keys + chord[..j] !in kb[mode]
    ensures PressAll(kb, mode, keys, chord).keys == keys + chord
    ensures chord != [] && keys + chord in kb[mode] ==> PressAll(kb, mode, keys, chord).sent == [kb[mode][keys + chord]]
    ensures keys + chord !in kb[mode] ==> PressAll(kb, mode, keys, chord).sent == []
    decreases |chord|
  {
    if chord == [] {
      assert keys + chord == keys;
    } else {
      var init := chord[..|chord| - 1];
      assert forall j :: 0 < j < |init| ==> init[..j] == chord[..j];
      ChordResolves(kb, mode, keys, init);
      assert keys + init + [chord[|chord| - 1]] == keys + chord;
      if init != [] {
        assert init == chord[..|chord| - 1];
      }
    }
  }

  /** With no table for the current mode, key presses change nothing and send nothing. */
  lemma {:induction false} NoTableNoEffect(kb: Keybindings, mode: Modes.Mode, keys: seq<KeyEvent>, presses: seq<KeyEvent>)
    requires mode !in kb
    ensures PressAll(kb, mode, keys, presses) == Resolution2(keys, [])
    decreases |presses|
  {
    if presses != [] {
      NoTableNoEffect(kb, mode, keys, presses[..|presses| - 1]);
    }
  }

  /** The engine's own reaction to an action, before the components see it. */
  function ApplyEngine(s: LoopState, a: Action): (r: LoopState)
    ensures a == Engine(Tick) ==> r == s.(keys := [])
    ensures a.Engine? && a.engine.ChangeMode? ==> r == s.(mode := a.engine.mode)
    ensures a == Engine(Quit) ==> r == s.(shouldQuit := true)
    ensures a == Engine(Suspend) ==> r == s.(shouldSuspend := true)
    ensures a == Engine(Resume) ==> r == s.(shouldSuspend := false)
    ensures !ChangesLoop(a) ==> r == s
  {
    if !a.Engine? then s
    else match a.engine
      case Tick => s.(keys := [])
      case ChangeMode(m) => s.(mode := m)
      case Quit => s.(shouldQuit := true)
      case Suspend => s.(shouldSuspend := true)
      case Resume => s.(shouldSuspend := false)
      case _ => s
  }

  /** The engine actions with an effect on the loop state. */
  predicate ChangesLoop(a: Action) {
    a.Engine? && (a.engine.Tick? || a.engine.ChangeMode? || a.engine.Quit? || a.engine.Suspend? || a.engine.Resume?)
  }

  /** The loop state after the engine has seen each action of `trace`, in order. */
  function ApplyAll(s: LoopState, trace: seq<Action>): LoopState
    decreases |trace|
  {
    if trace == [] then s else ApplyEngine(ApplyAll(s, trace[..|trace| - 1]), trace[|trace| - 1])
  }

  /** The key buffer is emptied exactly when a `Tick` went by, and otherwise kept. */
  lemma {:induction false} ApplyAllKeys(s: LoopState, trace: seq<Action>)
    ensures ApplyAll(s, trace).keys == if Engine(Tick) in trace then [] else s.keys
    decreases |trace|
  {
    if trace != [] {
      var init := trace[..|trace| - 1];
      ApplyAllKeys(s, init);
      assert trace == init + [trace[|trace| - 1]];
    }
  }

  /** Quitting is sticky: the flag is set exactly when it was set or a `Quit` went by. */
  lemma {:induction false} ApplyAllQuit(s: LoopState, trace: seq<Action>)
    ensures ApplyAll(s, trace).shouldQuit <==> s.shouldQuit || Engine(Quit) in trace
    decreases |trace|
  {
    if trace != [] {
      var init := trace[..|trace| - 1];
      ApplyAllQuit(s, init);
      assert trace == init + [trace[|trace| - 1]];
    }
  }

  /** `ChangeMode` of some mode. */
  predicate IsModeChange(a: Action) {
    a.Engine? && a.engine.ChangeMode?
  }

  /** Without a `ChangeMode` the mode is unchanged. */
  lemma {:induction false} ApplyAllModeKept(s: LoopState, trace: seq<Action>)
    requires forall i :: 0 <= i < |trace| ==> !IsModeChange(trace[i])
    ensures ApplyAll(s, trace).mode == s.mode
    decreases |trace|
  {
    if trace != [] {
      var init := trace[..|trace| - 1];
      assert forall i :: 0 <= i < |init| ==> init[i] == trace[i];
      ApplyAllModeKept(s, init);
    }
  }

  /** The mode is the one of the last `ChangeMode`. */
  lemma {:induction false} ApplyAllModeLast(s: LoopState, trace: seq<Action>, i: nat)
    requires i < |trace| && IsModeChange(trace[i])
    requires forall j :: i < j < |trace| ==> !IsModeChange(trace[j])
    ensures ApplyAll(s, trace).mode == trace[i].engine.mode
    decreases |trace|
  {
    var init := trace[..|trace| - 1];
    if i == |trace| - 1 {
    } else {
      assert forall j :: 0 <= j < |init| ==> init[j] == trace[j];
      ApplyAllModeLast(s, init, i);
    }
  }

  /** `Suspend` or `Resume`. */
  predicate IsSuspendToggle(a: Action) {
    a == Engine(Suspend) || a == Engine(Resume)
  }

  /** Without a `Suspend` or `Resume`, suspension is unchanged. */
  lemma {:induction false} ApplyAllSuspendKept(s: LoopState, trace: seq<Action>)
    requires forall i :: 0 <= i < |trace| ==> !IsSuspendToggle(trace[i])
    ensures ApplyAll(s, trace).shouldSuspend == s.shouldSuspend
    decreases |trace|
  {
    if trace != [] {
      var init := trace[..|trace| - 1];
      assert forall i :: 0 <= i < |init| ==> init[i] == trace[i];
      ApplyAllSuspendKept(s, init);
    }
  }

  /** Suspension follows the last `Suspend` or `Resume`. */
  lemma {:induction false} ApplyAllSuspendLast(s: LoopState, trace: seq<Action>, i: nat)
    requires i < |trace| && IsSuspendToggle(trace[i])
    requires forall j :: i < j < |trace| ==> !IsSuspendToggle(trace[j])
    ensures ApplyAll(s, trace).shouldSuspend == (trace[i] == Engine(Suspend))
    decreases |trace|
  {
    var init := trace[..|trace| - 1];
    if i == |trace| - 1 {
    } else {
      assert forall j :: 0 <= j < |init| ==> init[j] == trace[j];
      ApplyAllSuspendLast(s, init, i);
    }
  }

  /** The actions among `opts`, in order. */
  function Somes(opts: seq<Option<Action>>): (r: seq<Action>)
    ensures |r| <= |opts|
    ensures forall a :: a in r <==> Some(a) in opts
    decreases |opts|
  {
    if opts == [] then []
    else Somes(opts[..|opts| - 1]) + OptionToSeq(opts[|opts| - 1])
  }

  /** The components after each has handled `m`, in registration order, and what they sent. */
  datatype FanResult<C> = FanResult(comps: seq<C>, outputs: seq<Action>)

  /**
   * Offering `m` to every component in order: each is replaced by its next state,
   * and the actions they send are collected in component order.
   */
  function FanOut<C, M>(f: (C, M) -> Reaction<C>, comps: seq<C>, m: M): (r: FanResult<C>)
    ensures |r.comps| == |comps|
    ensures forall i :: 0 <= i < |comps| ==> r.comps[i] == f(comps[i], m).next
    ensures |r.outputs| <= |comps|
    decreases |comps|
  {
    if comps == [] then FanResult([], [])
    else
      var before := FanOut(f, comps[..|comps| - 1], m);
      var last := f(comps[|comps| - 1], m);
      FanResult(before.comps + [last.next], before.outputs + OptionToSeq(last.emitted))
  }

  /** Offering to one more component extends the fan-out by that component's reaction. */
  lemma FanOutSnoc<C, M>(f: (C, M) -> Reaction<C>, comps: seq<C>, m: M, i: nat)
    requires i < |comps|
    ensures var before := FanOut(f, comps[..i], m);
      FanOut(f, comps[..i + 1], m) ==
        FanResult(before.comps + [f(comps[i], m).next], before.outputs + OptionToSeq(f(comps[i], m).emitted))
  {
    assert comps[..i + 1][..i] == comps[..i];
  }

  /**
   * One step of offering in place: with the first `i` components already replaced
   * by their next states, replacing the `i`-th extends the fan-out by one.
   */
  lemma OfferStep<C, M>(f: (C, M) -> Reaction<C>, original: seq<C>, m: M, i: nat, comps: seq<C>)
    requires i < |original| == |comps|
    requires comps[..i] == FanOut(f, original[..i], m).comps && comps[i..] == original[i..]
    ensures var updated := comps[i := f(original[i], m).next];
      updated[..i + 1] == FanOut(f, original[..i + 1], m).comps && updated[i + 1..] == original[i + 1..]
    ensures FanOut(f, original[..i + 1], m).outputs ==
            FanOut(f, original[..i], m).outputs + OptionToSeq(f(original[i], m).emitted)
  {
    FanOutSnoc(f, original, m, i);
    var updated := comps[i := f(original[i], m).next];
    assert updated[..i + 1] == comps[..i] + [f(original[i], m).next];
    assert updated[i + 1..] == comps[i + 1..];
    assert comps[i + 1..] == original[i..][1..];
  }

  /** What the components send is, in component order, every answer that carries an action. */
  lemma {:induction false} FanOutOutputs<C, M>(f: (C, M) -> Reaction<C>, comps: seq<C>, m: M)
    ensures FanOut(f, comps, m).outputs == Somes(seq(|comps|, i requires 0 <= i < |comps| => f(comps[i], m).emitted))
    decreases |comps|
  {
    if comps != [] {
      var n := |comps|;
      var init := comps[..n - 1];
      var opts := seq(n, i requires 0 <= i < n => f(comps[i], m).emitted);
      var initOpts := seq(n - 1, i requires 0 <= i < n - 1 => f(init[i], m).emitted);
      FanOutOutputs(f, init, m);
      assert opts[..n - 1] == initOpts;
      assert Somes(opts) == Somes(initOpts) + OptionToSeq(f(comps[n - 1], m).emitted);
    }
  }

  /**
   * One turn of the drain loop: the front action leaves the bus, the engine
   * reacts to it, every component updates on it, and their follow-ups join the back.
   */
  function Step<C>(update: (C, Action) -> Reaction<C>, st: DrainState<C>): (r: DrainState<C>)
    requires st.queue != []
    ensures r.loop == ApplyEngine(st.loop, st.queue[0])
    ensures |r.comps| == |st.comps|
    ensures r.comps == FanOut(update, st.comps, st.queue[0]).comps
    ensures r.queue == st.queue[1..] + FanOut(update, st.comps, st.queue[0]).outputs
  {
    var a := st.queue[0];
    var fan := FanOut(update, st.comps, a);
    DrainState(ApplyEngine(st.loop, a), fan.comps, st.queue[1..] + fan.outputs)
  }

  /** `while let Ok(action) = action_rx.try_recv()`: at most `fuel` turns, stopping when the bus is empty. */
  function Drain<C>(update: (C, Action) -> Reaction<C>, st: DrainState<C>, fuel: nat): DrainState<C>
    decreases fuel
  {
    if st.queue == [] || fuel == 0 then st else Drain(update, Step(update, st), fuel - 1)
  }

  /** One turn of a drain that has fuel and work left. */
  lemma DrainUnfold<C>(update: (C, Action) -> Reaction<C>, st: DrainState<C>, fuel: nat)
    requires st.queue != [] && fuel > 0
    ensures Drain(update, st, fuel) == Drain(update, Step(update, st), fuel - 1)
    ensures Trace(update, st, fuel) == [st.queue[0]] + Trace(update, Step(update, st), fuel - 1)
  {
  }

  /** What the components send over one turn of a drain, followed by what they send in the rest. */
  lemma OutputsUnfold<C>(update: (C, Action) -> Reaction<C>, st: DrainState<C>, fuel: nat)
    requires st.queue != [] && fuel > 0
    ensures Outputs(update, st, fuel) ==
            FanOut(update, st.comps, st.queue[0]).outputs + Outputs(update, Step(update, st), fuel - 1)
  {
  }

  /** A drain loop's invariant carried over one turn: the rest of the drain from the next state ends where it did. */
  lemma DrainAdvance<C>(update: (C, Action) -> Reaction<C>, st: DrainState<C>, fuel: nat, done: seq<Action>,
                        next: DrainState<C>, rest: nat, total: DrainState<C>, trace: seq<Action>)
    requires st.queue != [] && fuel > 0
    requires next == Step(update, st) && rest == fuel - 1
    requires Drain(update, st, fuel) == total
    requires done + Trace(update, st, fuel) == trace
    ensures Drain(update, next, rest) == total
    ensures (done + [st.queue[0]]) + Trace(update, next, rest) == trace
  {
    DrainUnfold(update, st, fuel);
    var tail := Trace(update, next, rest);
    assert (done + [st.queue[0]]) + tail == done + ([st.queue[0]] + tail);
  }

  /** A drain with no work or no fuel left is already over. */
  lemma DrainOver<C>(update: (C, Action) -> Reaction<C>, st: DrainState<C>, fuel: nat)
    requires st.queue == [] || fuel == 0
    ensures Drain(update, st, fuel) == st && Trace(update, st, fuel) == []
  {
  }

  /** The actions the drain took off the bus, in order. */
  function Trace<C>(update: (C, Action) -> Reaction<C>, st: DrainState<C>, fuel: nat): seq<Action>
    decreases fuel
  {
    if st.queue == [] || fuel == 0 then [] else [st.queue[0]] + Trace(update, Step(update, st), fuel - 1)
  }

  /** The actions the components sent during the drain, in order. */
  function Outputs<C>(update: (C, Action) -> Reaction<C>, st: DrainState<C>, fuel: nat): seq<Action>
    decreases fuel
  {
    if st.queue == [] || fuel == 0 then []
    else FanOut(update, st.comps, st.queue[0]).outputs + Outputs(update, Step(update, st), fuel - 1)
  }

  /**
   * The bus is first in, first out and loses nothing: what was taken off, followed
   * by what is left, is what was queued followed by everything sent meanwhile.
   */
  lemma {:induction false} DrainConserves<C>(update: (C, Action) -> Reaction<C>, st: DrainState<C>, fuel: nat)
    ensures Trace(update, st, fuel) + Drain(update, st, fuel).queue == st.queue + Outputs(update, st, fuel)
    decreases fuel
  {
    if st.queue != [] && fuel != 0 {
      var next := Step(update, st);
      var fanned := FanOut(update, st.comps, st.queue[0]).outputs;
      DrainUnfold(update, st, fuel);
      OutputsUnfold(update, st, fuel);
      DrainConserves(update, next, fuel - 1);
      FrontSplice(st.queue, Trace(update, next, fuel - 1), Drain(update, next, fuel - 1).queue,
                  fanned, Outputs(update, next, fuel - 1));
    }
  }

  /** Putting the front element back before a rearranged rest of the queue. */
  lemma FrontSplice(q: seq<Action>, rest: seq<Action>, left: seq<Action>, fanned: seq<Action>, later: seq<Action>)
    requires q != [] && rest + left == q[1..] + fanned + later
    ensures [q[0]] + rest + left == q + (fanned + later)
  {
    calc {
      [q[0]] + rest + left;
      [q[0]] + (rest + left);
      [q[0]] + (q[1..] + fanned + later);
      ([q[0]] + q[1..]) + (fanned + later);
      { assert [q[0]] + q[1..] == q; }
      q + (fanned + later);
    }
  }

  /** The drain stops only on an empty bus or after using all its fuel. */
  lemma {:induction false} DrainStops<C>(update: (C, Action) -> Reaction<C>, st: DrainState<C>, fuel: nat)
    ensures |Trace(update, st, fuel)| <= fuel
    ensures Drain(update, st, fuel).queue == [] || |Trace(update, st, fuel)| == fuel
    decreases fuel
  {
    if st.queue != [] && fuel != 0 {
      var next := Step(update, st);
      assert Drain(update, st, fuel) == Drain(update, next, fuel - 1);
      assert |Trace(update, st, fuel)| == 1 + |Trace(update, next, fuel - 1)|;
      DrainStops(update, next, fuel - 1);
    }
  }

  /** No component is added or lost during a drain. */
  lemma {:induction false} DrainKeepsRoster<C>(update: (C, Action) -> Reaction<C>, st: DrainState<C>, fuel: nat)
    ensures |Drain(update, st, fuel).comps| == |st.comps|
    decreases fuel
  {
    if st.queue != [] && fuel != 0 {
      var next := Step(update, st);
      assert Drain(update, st, fuel) == Drain(update, next, fuel - 1);
      DrainKeepsRoster(update, next, fuel - 1);
    }
  }

  /** The loop state after a drain is the engine's reaction to the drained actions, in order. */
  lemma {:induction false} DrainLoop<C>(update: (C, Action) -> Reaction<C>, st: DrainState<C>, fuel: nat)
    ensures Drain(update, st, fuel).loop == ApplyAll(st.loop, Trace(update, st, fuel))
    decreases fuel
  {
    if st.queue != [] && fuel != 0 {
      var next := Step(update, st);
      var rest := Trace(update, next, fuel - 1);
      DrainUnfold(update, st, fuel);
      DrainLoop(update, next, fuel - 1);
      ApplyAllCons(st.loop, st.queue[0], rest);
      assert next.loop == ApplyEngine(st.loop, st.queue[0]);
      assert Trace(update, st, fuel) == [st.queue[0]] + rest;
    }
  }

  /** Reacting to `a` and then to `rest` is reacting to `[a] + rest`. */
  lemma {:induction false} ApplyAllCons(s: LoopState, a: Action, rest: seq<Action>)
    ensures ApplyAll(ApplyEngine(s, a), rest) == ApplyAll(s, [a] + rest)
    decreases |rest|
  {
    if rest != [] {
      var init := rest[..|rest| - 1];
      ApplyAllCons(s, a, init);
      assert ([a] + rest)[..|[a] + rest| - 1] == [a] + init;
    }
  }

  /**
   * Actions already queued are taken off first and in their order: the drain's
   * trace starts with the queue, or is a prefix of it when fuel runs out first.
   */
  lemma DrainFifo<C>(update: (C, Action) -> Reaction<C>, st: DrainState<C>, fuel: nat)
    ensures var t := Trace(update, st, fuel);
      (|t| <= |st.queue| ==> t == st.queue[..|t|]) && (|st.queue| <= |t| ==> t[..|st.queue|] == st.queue)
  {
    DrainConserves(update, st, fuel);
    var t := Trace(update, st, fuel);
    var whole := st.queue + Outputs(update, st, fuel);
    assert t == whole[..|t|];
    assert st.queue == whole[..|st.queue|];
  }

  /** The action a non-key event turns into, if any. */
  function EventAction(e: TuiEvents.Event): (r: Option<Action>)
    ensures r.Some? <==> !e.Key? && !e.Other?
  {
    match e
    case Quit => Some(Engine(Quit))
    case Tick => Some(Engine(Tick))
    case Render => Some(Engine(Render))
    case Resize(w, h) => Some(Engine(Resize(w, h)))
    case Key(_) => None
    case Other => None
  }

  /**
   * One event from the terminal: its own action or the key resolution goes on
   * the bus first, then every component's `handle_events` answer, in order. A
   * missing event does nothing.
   */
  function Ingest<C>(kb: Keybindings, handle: (C, TuiEvents.Event) -> Reaction<C>, st: DrainState<C>,
                     e: Option<TuiEvents.Event>): (r: DrainState<C>)
    ensures e.None? ==> r == st
    ensures |r.comps| == |st.comps|
    ensures |st.queue| <= |r.queue| && r.queue[..|st.queue|] == st.queue
    ensures e.Some? && !e.value.Key? ==> r.loop == st.loop
    ensures e.Some? ==>
      r.queue[|st.queue|..] ==
        (if e.value.Key? then OptionToSeq(ResolveKey(kb, st.loop.mode, st.loop.keys, e.value.key).emitted)
         else OptionToSeq(EventAction(e.value)))
        + FanOut(handle, st.comps, e.value).outputs
  {
    match e
    case None => st
    case Some(ev) =>
      var res := EventResolution(kb, st.loop, ev);
      var fan := FanOut(handle, st.comps, ev);
      var queue := st.queue + (OptionToSeq(res.emitted) + fan.outputs);
      Extend(st.queue, OptionToSeq(res.emitted) + fan.outputs);
      DrainState(st.loop.(keys := res.keys), fan.comps, queue)
  }

  /** The key buffer and the action an event leaves: key resolution for a key, the event's own action otherwise. */
  function EventResolution(kb: Keybindings, loop: LoopState, ev: TuiEvents.Event): (r: Resolution)
    ensures !ev.Key? ==> r == Resolution(loop.keys, EventAction(ev))
    ensures ev.Key? ==> r == ResolveKey(kb, loop.mode, loop.keys, ev.key)
  {
    if ev.Key? then ResolveKey(kb, loop.mode, loop.keys, ev.key)
    else Resolution(loop.keys, EventAction(ev))
  }

  /** A queue extended at the back keeps its front, and the extension is what follows it. */
  lemma Extend(q: seq<Action>, more: seq<Action>)
    ensures (q + more)[..|q|] == q && (q + more)[|q|..] == more
  {
  }

  /**
   * After a drain: a pending suspension is served first, with `Resume` queued for
   * the next turn of the loop; only without one does a pending quit end the loop.
   */
  function Settle<C>(st: DrainState<C>): (r: (DrainState<C>, Outcome))
    ensures r.1 == Exit <==> !st.loop.shouldSuspend && st.loop.shouldQuit
    ensures r.1 != Stalled
    ensures st.loop.shouldSuspend ==> r.0 == st.(queue := st.queue + [Engine(Resume)])
    ensures !st.loop.shouldSuspend ==> r.0 == st
  {
    if st.loop.shouldSuspend then (st.(queue := st.queue + [Engine(Resume)]), Continue)
    else if st.loop.shouldQuit then (st, Exit)
    else (st, Continue)
  }

  /** One iteration of the `loop` in `App::run`: take an event, drain the bus, then settle. */
  function Round<C>(kb: Keybindings, update: (C, Action) -> Reaction<C>, handle: (C, TuiEvents.Event) -> Reaction<C>,
                    st: DrainState<C>, e: Option<TuiEvents.Event>, fuel: nat): (DrainState<C>, Outcome)
  {
    var drained := Drain(update, Ingest(kb, handle, st, e), fuel);
    if drained.queue != [] then (drained, Stalled) else Settle(drained)
  }

  /** The loop over a finite run of events, stopping at the first exit or stall. */
  function RunFrom<C>(kb: Keybindings, update: (C, Action) -> Reaction<C>, handle: (C, TuiEvents.Event) -> Reaction<C>,
                      st: DrainState<C>, events: seq<Option<TuiEvents.Event>>, fuel: nat): (DrainState<C>, Outcome)
    decreases |events|
  {
    if events == [] then (st, Continue)
    else
      var r := Round(kb, update, handle, st, events[0], fuel);
      if r.1 != Continue then r else RunFrom(kb, update, handle, r.0, events[1..], fuel)
  }

  /**
   * A round ends the loop only when the drain left quitting set and suspension
   * clear; a suspended round always continues with exactly `Resume` queued.
   */
  lemma RoundOutcome<C>(kb: Keybindings, update: (C, Action) -> Reaction<C>, handle: (C, TuiEvents.Event) -> Reaction<C>,
                        st: DrainState<C>, e: Option<TuiEvents.Event>, fuel: nat)
    ensures var r := Round(kb, update, handle, st, e, fuel);
      r.1 == Exit ==> r.0.loop.shouldQuit && !r.0.loop.shouldSuspend && r.0.queue == []
    ensures var r := Round(kb, update, handle, st, e, fuel);
      r.1 != Stalled && r.0.loop.shouldSuspend ==> r.1 == Continue && r.0.queue == [Engine(Resume)]
  {
  }

  /**
   * After a suspended round, the next round's drain handles `Resume` before
   * anything else, whatever the next event queues behind it.
   */
  lemma ResumeComesFirst<C>(kb: Keybindings, update: (C, Action) -> Reaction<C>, handle: (C, TuiEvents.Event) -> Reaction<C>,
                            st: DrainState<C>, e: Option<TuiEvents.Event>, fuel: nat)
    requires st.queue == [Engine(Resume)] && fuel >= 1
    ensures var t := Trace(update, Ingest(kb, handle, st, e), fuel); t != [] && t[0] == Engine(Resume)
  {
    var s1 := Ingest(kb, handle, st, e);
    assert s1.queue[0] == s1.queue[..1][0];
  }

  /** When the run of events ends the loop, it is because quitting was set and suspension was not. */
  lemma {:induction false} RunExit<C>(kb: Keybindings, update: (C, Action) -> Reaction<C>, handle: (C, TuiEvents.Event) -> Reaction<C>,
                                      st: DrainState<C>, events: seq<Option<TuiEvents.Event>>, fuel: nat)
    ensures var r := RunFrom(kb, update, handle, st, events, fuel);
      r.1 == Exit ==> r.0.loop.shouldQuit && !r.0.loop.shouldSuspend
    decreases |events|
  {
    if events != [] {
      RoundOutcome(kb, update, handle, st, events[0], fuel);
      var r := Round(kb, update, handle, st, events[0], fuel);
      if r.1 == Continue {
        RunExit(kb, update, handle, r.0, events[1..], fuel);
      }
    }
  }
}
