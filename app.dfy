/**
 * `App` of `src/app.rs` as a class whose methods update its fields in place:
 * taking one terminal event, draining the action bus, and the suspend/quit
 * decision, each proved to do what the `Dispatch` functions say.
 */
module AppLoop {
  import opened Wrappers
  import opened Keys
  import Modes
  import opened Actions
  import TuiEvents
  import opened Dispatch

  class App<C> {
    const keybindings: Keybindings
    const update: (C, Action) -> Reaction<C>
    const handleEvents: (C, TuiEvents.Event) -> Reaction<C>
    var components: seq<C>
    var mode: Modes.Mode
    var shouldQuit: bool
    var shouldSuspend: bool
    var lastTickKeyEvents: seq<KeyEvent>
    var bus: seq<Action>  // the unbounded channel, front first

    function Loop(): LoopState
      reads this
    {
      LoopState(mode, shouldQuit, shouldSuspend, lastTickKeyEvents)
    }

    function Snapshot(): DrainState<C>
      reads this
    {
      DrainState(Loop(), components, bus)
    }

    /** `App::new`: the given components, the main menu mode, nothing pending. */
    constructor(keybindings: Keybindings, update: (C, Action) -> Reaction<C>,
                handleEvents: (C, TuiEvents.Event) -> Reaction<C>, components: seq<C>)
      ensures Loop() == Initial && bus == []
      ensures this.components == components && this.keybindings == keybindings
      ensures this.update == update && this.handleEvents == handleEvents
    {
      this.keybindings := keybindings;
      this.update := update;
      this.handleEvents := handleEvents;
      this.components := components;
      mode := Modes.MainMenu;
      shouldQuit := false;
      shouldSuspend := false;
      lastTickKeyEvents := [];
      bus := [];
    }

    /** Offers `m` to each component in order, updating it in place and sending its answer. */
    method Offer<M>(f: (C, M) -> Reaction<C>, m: M)
      modifies this
      ensures components == FanOut(f, old(components), m).comps
      ensures bus == old(bus) + FanOut(f, old(components), m).outputs
      ensures Loop() == old(Loop())
    {
      var original := components;
      var comps := original;
      var sent: seq<Action> := [];
      var i := 0;
      while i < |comps|
        modifies {}
        invariant 0 <= i <= |comps| == |original|
        invariant comps[..i] == FanOut(f, original[..i], m).comps
        invariant comps[i..] == original[i..]
        invariant sent == FanOut(f, original[..i], m).outputs
      {
        assert comps[i] == original[i] by {
          assert comps[i..][0] == original[i..][0];
        }
        var reaction := f(comps[i], m);
        OfferStep(f, original, m, i, comps);
        comps := comps[i := reaction.next];
        if reaction.emitted.Some? {
          sent := sent + [reaction.emitted.value];
        }
        i := i + 1;
      }
      assert original[..|original|] == original;
      assert comps[..i] == comps;
      components := comps;
      bus := bus + sent;
    }

    /** Queues what the event itself stands for: the event's own action, or the action its key resolves to. */
    method Queue(ev: TuiEvents.Event)
      modifies this
      ensures var res := EventResolution(keybindings, old(Loop()), ev);
        Loop() == old(Loop()).(keys := res.keys) && bus == old(bus) + OptionToSeq(res.emitted)
      ensures components == old(components)
    {
      match ev {
        case Quit => bus := bus + [Engine(Quit)];
        case Tick => bus := bus + [Engine(Tick)];
        case Render => bus := bus + [Engine(Render)];
        case Resize(w, h) => bus := bus + [Engine(Resize(w, h))];
        case Key(key) =>
          if mode in keybindings {
            var keymap := keybindings[mode];
            if [key] in keymap {
              bus := bus + [keymap[[key]]];
            } else {
              lastTickKeyEvents := lastTickKeyEvents + [key];
              if lastTickKeyEvents in keymap {
                bus := bus + [keymap[lastTickKeyEvents]];
              }
            }
          }
        case Other =>
      }
    }

    /** The event arm of the loop body: queue the event's own action or resolve the key, then `handle_events`. */
    method HandleEvent(e: Option<TuiEvents.Event>)
      modifies this
      ensures Snapshot() == Ingest(keybindings, handleEvents, old(Snapshot()), e)
    {
      if e.None? {
        return;
      }
      var ev := e.value;
      ghost var res := EventResolution(keybindings, Loop(), ev);
      ghost var queued := bus;
      Queue(ev);
      ghost var fan := FanOut(handleEvents, components, ev);
      Offer(handleEvents, ev);
      assert bus == queued + (OptionToSeq(res.emitted) + fan.outputs);
    }

    /** The engine's own reaction to one action. */
    method ApplyToLoop(action: Action)
      modifies this
      ensures Loop() == ApplyEngine(old(Loop()), action)
      ensures components == old(components) && bus == old(bus)
    {
      if action.Engine? {
        match action.engine {
          case Tick => lastTickKeyEvents := [];
          case ChangeMode(m) => mode := m;
          case Quit => shouldQuit := true;
          case Suspend => shouldSuspend := true;
          case Resume => shouldSuspend := false;
          case _ =>
        }
      }
    }

    /** One turn of the drain: take the front action, let the engine and then every component react to it. */
    method Turn() returns (action: Action)
      requires bus != []
      modifies this
      ensures action == old(bus[0])
      ensures Snapshot() == Step(update, old(Snapshot()))
    {
      action := bus[0];
      bus := bus[1..];
      ApplyToLoop(action);
      Offer(update, action);
    }

    /** `while let Ok(action) = action_rx.try_recv()`, for at most `fuel` actions. */
    method DrainBus(fuel: nat) returns (processed: seq<Action>)
      modifies this
      ensures Snapshot() == Drain(update, old(Snapshot()), fuel)
      ensures processed == Trace(update, old(Snapshot()), fuel)
    {
      ghost var st := Snapshot();
      ghost var total := Drain(update, st, fuel);
      ghost var trace := Trace(update, st, fuel);
      processed := [];
      var left: nat := fuel;
      while bus != [] && left > 0
        invariant st == Snapshot()
        invariant Drain(update, st, left) == total
        invariant processed + Trace(update, st, left) == trace
        decreases left
      {
        ghost var before := st;
        var action := Turn();
        st := Snapshot();
        DrainAdvance(update, before, left, processed, st, left - 1, total, trace);
        processed := processed + [action];
        left := left - 1;
      }
      DrainOver(update, Snapshot(), left);
    }

    /** After the drain: a suspension queues `Resume` and goes on; otherwise a quit ends the loop. */
    method Settle() returns (outcome: Outcome)
      modifies this
      ensures (Snapshot(), outcome) == Dispatch.Settle(old(Snapshot()))
    {
      if shouldSuspend {
        bus := bus + [Engine(Resume)];
        outcome := Continue;
      } else if shouldQuit {
        outcome := Exit;
      } else {
        outcome := Continue;
      }
    }

    /** The `loop` of `App::run` over a finite run of events. */
    method Run(events: seq<Option<TuiEvents.Event>>, fuel: nat) returns (outcome: Outcome)
      modifies this
      ensures (Snapshot(), outcome) == RunFrom(keybindings, update, handleEvents, old(Snapshot()), events, fuel)
    {
      var i := 0;
      while i < |events|
        invariant 0 <= i <= |events|
        invariant RunFrom(keybindings, update, handleEvents, Snapshot(), events[i..], fuel)
          == RunFrom(keybindings, update, handleEvents, old(Snapshot()), events, fuel)
        decreases |events| - i
      {
        ghost var before := Snapshot();
        HandleEvent(events[i]);
        var processed := DrainBus(fuel);
        if bus != [] {
          outcome := Stalled;
          return;
        }
        outcome := Settle();
        assert (Snapshot(), outcome) == Round(keybindings, update, handleEvents, before, events[i], fuel);
        if outcome == Exit {
          return;
        }
        assert events[i..][1..] == events[i + 1..];
        i := i + 1;
      }
      outcome := Continue;
    }
  }
}
