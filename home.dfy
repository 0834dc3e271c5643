/**
 * The Home screen of `src/components/home.rs` as values: its state, the effect
 * of each of its operations on that state, and what it says in answer to a
 * key press or an action. `HomeComponent.Home` below updates the same state in
 * place and is proved to follow these functions.
 */
module HomeModel {
  import opened Wrappers
  import opened Ints
  import opened Keys
  import opened Actions
  import TabCycle

  /** The input mode of the screen. */
  datatype InputMode = Normal | Insert | Processing

  /** `LIST_OPS`: the list-operation tabs and the action each one stands for. */
  const ListOps: map<string, Action> := map[
    "List" := Home(ScheduleIncrement),
    "Add" := Home(ScheduleDecrement),
    "Edit" := Home(ScheduleIncrement),
    "Delete" := Home(ScheduleDecrement)
  ]

  /** `LIST_OPS.len()`: four distinct labels, so four tabs. */
  function ListOpsLen(): (n: nat)
    ensures n == 4
  {
    assert ListOps.Keys == {"List", "Add", "Edit", "Delete"};
    |ListOps|
  }

  /**
   * The fields of `Home`. `connected` says whether `action_tx` has been set,
   * and `sent` lists, in order, the actions the screen has put on that channel.
   */
  datatype State = State(
    counter: Usize,
    appTicker: Usize,
    renderTicker: Usize,
    mode: InputMode,
    input: string,
    connected: bool,
    keymap: map<seq<KeyEvent>, Action>,
    text: seq<string>,
    lastEvents: seq<KeyEvent>,
    todoOpIndex: Usize,
    sent: seq<Action>)

  /** `Home::default()`. */
  const Default := State(0, 0, 0, Normal, "", false, map[], [], [], 0, [])

  /** The selected tab is one of the `LIST_OPS` tabs. */
  predicate Valid(s: State) {
    s.todoOpIndex < ListOpsLen()
  }

  /** `tick`: one more application tick, saturating at the maximum, and the key log emptied. */
  function Ticked(s: State): (r: State)
    ensures r.lastEvents == []
    ensures r.appTicker == if s.appTicker < UsizeMax then s.appTicker + 1 else UsizeMax
    ensures r.(appTicker := s.appTicker, lastEvents := s.lastEvents) == s
  {
    s.(appTicker := SaturatingAdd(s.appTicker, 1), lastEvents := [])
  }

  /** `render_tick`: one more frame, saturating at the maximum. */
  function RenderTicked(s: State): (r: State)
    ensures r.renderTicker == if s.renderTicker < UsizeMax then s.renderTicker + 1 else UsizeMax
    ensures r.(renderTicker := s.renderTicker) == s
  {
    s.(renderTicker := SaturatingAdd(s.renderTicker, 1))
  }

  /** `add`: the line goes after every line already there. */
  function Added(s: State, line: string): (r: State)
    ensures |r.text| == |s.text| + 1 && r.text[..|s.text|] == s.text && r.text[|s.text|] == line
    ensures r.(text := s.text) == s
  {
    s.(text := s.text + [line])
  }

  /** `increment`: the counter grows by `i`, stopping at the maximum. */
  function Incremented(s: State, i: Usize): (r: State)
    ensures s.counter <= r.counter
    ensures r.counter == s.counter + i || r.counter == UsizeMax
    ensures s.counter + i <= UsizeMax ==> r.counter == s.counter + i
    ensures r.(counter := s.counter) == s
  {
    s.(counter := SaturatingAdd(s.counter, i))
  }

  /** `decrement`: the counter shrinks by `i`, stopping at zero. */
  function Decremented(s: State, i: Usize): (r: State)
    ensures r.counter <= s.counter
    ensures r.counter == if i <= s.counter then s.counter - i else 0
    ensures r.(counter := s.counter) == s
  {
    s.(counter := SaturatingSub(s.counter, i))
  }

  /**
   * `navigate_list`: in Normal mode `Left` and `Right` move the selected tab
   * round the row; `Up`, `Down` and the other modes change nothing.
   */
  function Navigated(s: State, dir: ListNavDirection): (r: State)
    requires Valid(s)
    ensures Valid(r)
    ensures r.(todoOpIndex := s.todoOpIndex) == s
    ensures s.mode != Normal || dir.Up? || dir.Down? ==> r == s
    ensures s.mode == Normal && dir.Left? ==> (r.todoOpIndex + 1) % ListOpsLen() == s.todoOpIndex
    ensures s.mode == Normal && dir.Right? ==> r.todoOpIndex == (s.todoOpIndex + 1) % ListOpsLen()
  {
    if s.mode != Normal then s
    else
      match dir
      case Left => s.(todoOpIndex := TabCycle.Prev(s.todoOpIndex, ListOpsLen()))
      case Right => s.(todoOpIndex := TabCycle.Next(s.todoOpIndex, ListOpsLen()))
      case _ => s
  }

  /**
   * `schedule_increment` / `schedule_decrement`: the spawned task sends the
   * switch to Processing, the counter change and the switch back, in that
   * order. `action_tx` is unwrapped, so a sender must have been registered.
   */
  function Scheduled(s: State, op: HomeAction): (r: State)
    requires s.connected
    requires op.Increment? || op.Decrement?
    ensures |r.sent| == |s.sent| + 3 && r.sent[..|s.sent|] == s.sent
    ensures r.sent[|s.sent|..] == [Home(EnterProcessing), Home(op), Home(ExitProcessing)]
    ensures r.(sent := s.sent) == s
  {
    s.(sent := s.sent + [Home(EnterProcessing), Home(op), Home(ExitProcessing)])
  }

  /** The actions whose handling unwraps `action_tx`. */
  predicate NeedsSender(a: Action) {
    a.Home? && (a.home.ScheduleIncrement? || a.home.ScheduleDecrement?)
  }

  /** `Component::update` for Home: the new state (the answer is always `None`). */
  function Updated(s: State, a: Action): (r: State)
    requires Valid(s)
    requires NeedsSender(a) ==> s.connected
    ensures Valid(r)
    ensures a == Engine(Tick) ==> r == Ticked(s)
    ensures a == Engine(Render) ==> r == RenderTicked(s)
    ensures a.Engine? && !a.engine.Tick? && !a.engine.Render? ==> r == s
    ensures a == Action.Home(ScheduleIncrement) ==> r == Scheduled(s, Increment(1))
    ensures a == Action.Home(ScheduleDecrement) ==> r == Scheduled(s, Decrement(1))
    ensures a.Home? && a.home.Increment? ==> r == Incremented(s, a.home.amount)
    ensures a.Home? && a.home.Decrement? ==> r == Decremented(s, a.home.amount)
    ensures a.Home? && a.home.CompleteInput? ==> r == Added(s, a.home.text)
    ensures a.Home? && a.home.NavigateList? ==> r == Navigated(s, a.home.direction)
    ensures a in [Action.Home(Help), Action.Home(HomeAction.ToggleShowHelp), Action.Home(HomeAction.Update)] ==> r == s
  {
    match a
    case Engine(e) =>
      (match e
       case Tick => Ticked(s)
       case Render => RenderTicked(s)
       case _ => s)
    case Home(h) =>
      match h
      case ScheduleIncrement => Scheduled(s, Increment(1))
      case ScheduleDecrement => Scheduled(s, Decrement(1))
      case Increment(i) => Incremented(s, i)
      case Decrement(i) => Decremented(s, i)
      case CompleteInput(line) => Added(s, line)
      case EnterNormal => s.(mode := Normal)
      case EnterInsert => s.(mode := Insert)
      case EnterProcessing => s.(mode := Processing)
      case NavigateList(dir) => Navigated(s, dir)
      case ExitProcessing => s.(mode := Normal)
      case _ => s
  }

  /**
   * `handle_key_events`: the key is logged; outside Insert mode nothing is
   * answered. In Insert mode Esc answers `EnterNormal`, Enter first sends the
   * input as `CompleteInput` (when a sender is registered) and answers
   * `EnterNormal`, and every other key is given to the input editor `edit` and
   * answers `Update`.
   */
  function KeyHandled(s: State, key: KeyEvent, edit: (string, KeyEvent) -> string): (r: (State, Option<Action>))
    ensures r.0.lastEvents == s.lastEvents + [key]
    ensures r.1.None? <==> s.mode != Insert
    ensures s.mode != Insert ==> r.0 == s.(lastEvents := r.0.lastEvents)
    ensures s.mode == Insert ==>
      r.1 == Some(Home(if key.code.Esc? || key.code.Enter? then EnterNormal else Update))
    ensures s.mode == Insert && key.code.Esc? ==> r.0 == s.(lastEvents := s.lastEvents + [key])
    ensures s.mode == Insert && key.code.Enter? ==>
      r.0 == s.(lastEvents := s.lastEvents + [key],
                sent := s.sent + (if s.connected then [Home(CompleteInput(s.input))] else []))
    ensures s.mode == Insert && !key.code.Esc? && !key.code.Enter? ==>
      r.0 == s.(lastEvents := s.lastEvents + [key], input := edit(s.input, key))
  {
    var logged := s.(lastEvents := s.lastEvents + [key]);
    match s.mode
    case Normal => (logged, None)
    case Processing => (logged, None)
    case Insert =>
      match key.code
      case Esc => (logged, Some(Home(EnterNormal)))
      case Enter =>
        var sent := if s.connected then s.sent + [Home(CompleteInput(s.input))] else s.sent;
        (logged.(sent := sent), Some(Home(EnterNormal)))
      case _ => (logged.(input := edit(s.input, key)), Some(Home(Update)))
  }

  /** The mode switches of `update`: each lands in its own mode and touches nothing else. */
  lemma UpdateSetsMode(s: State, a: Action)
    requires Valid(s)
    requires a in [Home(EnterNormal), Home(EnterInsert), Home(EnterProcessing), Home(ExitProcessing)]
    ensures Updated(s, a).mode == (if a == Home(EnterInsert) then Insert
                                   else if a == Home(EnterProcessing) then Processing
                                   else Normal)
    ensures Updated(s, a).(mode := s.mode) == s
  {
  }

  /** `CompleteInput(line)` appends `line` after the earlier entries, which stay as they were. */
  lemma CompleteInputAppends(s: State, line: string)
    requires Valid(s)
    ensures Updated(s, Home(CompleteInput(line))).text == s.text + [line]
  {
  }

  /**
   * Enter in Insert mode, with a sender registered, commits the input: once
   * the `EnterNormal` answer and the `CompleteInput` it sent are handled by
   * `update`, Home is back in Normal mode with the input as its newest entry.
   */
  lemma EnterCommitsInput(s: State, key: KeyEvent, edit: (string, KeyEvent) -> string)
    requires Valid(s) && s.mode == Insert && s.connected && key.code.Enter?
    ensures var r := KeyHandled(s, key, edit);
      && r.1 == Some(Home(EnterNormal))
      && r.0.sent == s.sent + [Home(CompleteInput(s.input))]
      && Valid(r.0)
      && Updated(Updated(r.0, r.1.value), r.0.sent[|s.sent|])
         == r.0.(mode := Normal, text := s.text + [s.input])
  {
    var r := KeyHandled(s, key, edit);
    assert r.0.sent[|s.sent|] == Home(CompleteInput(s.input));
  }

  /** Scheduling sends exactly the three-step batch and changes nothing else. */
  lemma ScheduleSendsBatch(s: State)
    requires Valid(s) && s.connected
    ensures Updated(s, Home(ScheduleIncrement)) ==
            s.(sent := s.sent + [Home(EnterProcessing), Home(Increment(1)), Home(ExitProcessing)])
    ensures Updated(s, Home(ScheduleDecrement)) ==
            s.(sent := s.sent + [Home(EnterProcessing), Home(Decrement(1)), Home(ExitProcessing)])
  {
  }

  /**
   * The batch a schedule sends, once handled by `update`, goes through
   * Processing and back to Normal, and moves the counter by one.
   */
  lemma {:induction false} BatchEffect(s: State, op: HomeAction)
    requires Valid(s)
    requires op == Increment(1) || op == Decrement(1)
    ensures var r := Updated(Updated(Updated(s, Home(EnterProcessing)), Home(op)), Home(ExitProcessing));
            r.mode == Normal && r.counter == (if op.Increment? then SaturatingAdd(s.counter, 1)
                                              else SaturatingSub(s.counter, 1))
            && r.(mode := s.mode, counter := s.counter) == s
  {
    var s1 := Updated(s, Home(EnterProcessing));
    assert s1 == s.(mode := Processing);
    var s2 := Updated(s1, Home(op));
    if op.Increment? {
      assert s2 == Incremented(s1, 1);
    } else {
      assert s2 == Decremented(s1, 1);
    }
  }

  /** An increment that does not saturate is undone by a decrement of the same amount. */
  lemma IncrementThenDecrement(s: State, i: Usize)
    requires Valid(s) && s.counter + i <= UsizeMax
    ensures Updated(Updated(s, Home(Increment(i))), Home(Decrement(i))) == s
  {
  }

  /** In Normal mode `NavigateList(Left)` and `NavigateList(Right)` undo each other. */
  lemma {:induction false} NavigateLeftRight(s: State)
    requires Valid(s) && s.mode == Normal
    ensures Updated(Updated(s, Home(NavigateList(Left))), Home(NavigateList(Right))) == s
    ensures Updated(Updated(s, Home(NavigateList(Right))), Home(NavigateList(Left))) == s
  {
    TabCycle.PrevNextInverse(s.todoOpIndex, ListOpsLen());
  }

  /** `update` never reads the key log or the input line, and a tick is the only action that clears the log. */
  lemma UpdateKeepsKeyLog(s: State, a: Action)
    requires Valid(s)
    requires NeedsSender(a) ==> s.connected
    requires a != Engine(Tick)
    ensures Updated(s, a).lastEvents == s.lastEvents
    ensures Updated(s, a).input == s.input
  {
    match a
    case Engine(e) =>
      assert e != Tick;
    case Home(h) =>
      HomeArmKeeps(s, h);
  }

  /** No Home action touches the key log or the input line. */
  lemma HomeArmKeeps(s: State, h: HomeAction)
    requires Valid(s)
    requires NeedsSender(Home(h)) ==> s.connected
    ensures Updated(s, Home(h)).lastEvents == s.lastEvents
    ensures Updated(s, Home(h)).input == s.input
  {
    match h
    case ScheduleIncrement =>
    case ScheduleDecrement =>
    case Increment(i) =>
    case Decrement(i) =>
    case CompleteInput(line) =>
    case NavigateList(dir) =>
    case _ =>
  }
}

/** The Home screen as the object the source updates in place. */
module HomeComponent {
  import opened Wrappers
  import opened Ints
  import opened Keys
  import Modes
  import Actions
  import opened HomeModel
  import Dispatch

  class Home {
    /** The `tui_input` editor's response to a key, a parameter of the model. */
    const edit: (string, KeyEvent) -> string
    var counter: Usize
    var appTicker: Usize
    var renderTicker: Usize
    var mode: InputMode
    var input: string
    var connected: bool
    var keymap: map<seq<KeyEvent>, Actions.Action>
    var text: seq<string>
    var lastEvents: seq<KeyEvent>
    var todoOpIndex: Usize
    var sent: seq<Actions.Action>

    function State(): HomeModel.State
      reads this
    {
      HomeModel.State(counter, appTicker, renderTicker, mode, input, connected, keymap, text,
                      lastEvents, todoOpIndex, sent)
    }

    predicate Valid()
      reads this
    {
      HomeModel.Valid(State())
    }

    /** `Home::new`. */
    constructor(edit: (string, KeyEvent) -> string)
      ensures State() == Default && Valid() && this.edit == edit
    {
      this.edit := edit;
      counter := 0;
      appTicker := 0;
      renderTicker := 0;
      mode := Normal;
      input := "";
      connected := false;
      keymap := map[];
      text := [];
      lastEvents := [];
      todoOpIndex := 0;
      sent := [];
    }

    /** `register_config_handler`: the Home table of the keybindings; a missing table is a panic. */
    method RegisterConfig(keybindings: Dispatch.Keybindings)
      requires Modes.Home in keybindings
      modifies this
      ensures State() == old(State()).(keymap := keybindings[Modes.Home])
    {
      keymap := keybindings[Modes.Home];
    }

    /** `register_action_handler`. */
    method RegisterActionHandler()
      modifies this
      ensures State() == old(State()).(connected := true)
    {
      connected := true;
    }

    method Tick()
      modifies this
      ensures State() == Ticked(old(State()))
    {
      appTicker := SaturatingAdd(appTicker, 1);
      lastEvents := [];
    }

    method RenderTick()
      modifies this
      ensures State() == RenderTicked(old(State()))
    {
      renderTicker := SaturatingAdd(renderTicker, 1);
    }

    method Add(line: string)
      modifies this
      ensures State() == Added(old(State()), line)
    {
      text := text + [line];
    }

    method ScheduleIncrement(i: Usize)
      requires connected
      modifies this
      ensures State() == Scheduled(old(State()), Actions.Increment(i))
    {
      sent := sent + [Actions.Home(Actions.EnterProcessing)];
      sent := sent + [Actions.Home(Actions.Increment(i))];
      sent := sent + [Actions.Home(Actions.ExitProcessing)];
    }

    method ScheduleDecrement(i: Usize)
      requires connected
      modifies this
      ensures State() == Scheduled(old(State()), Actions.Decrement(i))
    {
      sent := sent + [Actions.Home(Actions.EnterProcessing)];
      sent := sent + [Actions.Home(Actions.Decrement(i))];
      sent := sent + [Actions.Home(Actions.ExitProcessing)];
    }

    method Increment(i: Usize)
      modifies this
      ensures State() == Incremented(old(State()), i)
    {
      counter := SaturatingAdd(counter, i);
    }

    method Decrement(i: Usize)
      modifies this
      ensures State() == Decremented(old(State()), i)
    {
      counter := SaturatingSub(counter, i);
    }

    method NavigateList(dir: Actions.ListNavDirection)
      requires Valid()
      modifies this
      ensures State() == Navigated(old(State()), dir) && Valid()
    {
      if mode == Normal {
        match dir {
          case Left =>
            if todoOpIndex == 0 {
              todoOpIndex := ListOpsLen() - 1;
            } else {
              todoOpIndex := todoOpIndex - 1;
            }
          case Right =>
            todoOpIndex := if todoOpIndex == ListOpsLen() - 1 then 0 else todoOpIndex + 1;
          case _ =>
        }
      }
    }

    method HandleKeyEvents(key: KeyEvent) returns (r: Option<Actions.Action>)
      modifies this
      ensures (State(), r) == KeyHandled(old(State()), key, edit)
    {
      lastEvents := lastEvents + [key];
      match mode {
        case Normal => r := None;
        case Processing => r := None;
        case Insert =>
          match key.code {
            case Esc => r := Some(Actions.Home(Actions.EnterNormal));
            case Enter =>
              if connected {
                sent := sent + [Actions.Home(Actions.CompleteInput(input))];
              }
              r := Some(Actions.Home(Actions.EnterNormal));
            case _ =>
              input := edit(input, key);
              r := Some(Actions.Home(Actions.Update));
          }
      }
    }

    method Update(action: Actions.Action) returns (r: Option<Actions.Action>)
      requires Valid()
      requires NeedsSender(action) ==> connected
      modifies this
      ensures State() == Updated(old(State()), action) && Valid()
      ensures r.None?
    {
      match action {
        case Engine(e) =>
          match e {
            case Tick => Tick();
            case Render => RenderTick();
            case _ =>
          }
        case Home(h) =>
          match h {
            case ScheduleIncrement => ScheduleIncrement(1);
            case ScheduleDecrement => ScheduleDecrement(1);
            case Increment(i) => Increment(i);
            case Decrement(i) => Decrement(i);
            case CompleteInput(line) => Add(line);
            case EnterNormal => mode := Normal;
            case EnterInsert => mode := Insert;
            case EnterProcessing => mode := Processing;
            case NavigateList(dir) => NavigateList(dir);
            case ExitProcessing => mode := Normal;
            case _ =>
          }
      }
      r := None;
    }
  }
}
