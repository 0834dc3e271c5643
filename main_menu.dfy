/**
 * The main menu of `src/components/main_menu.rs`: a row of list-operation tabs
 * with a wrap-around selection. It is written against the flat action type of
 * `src/action.rs`.
 */
module MainMenuModel {
  import opened Ints
  import opened Keys
  import opened FlatActions
  import TabCycle

  /** `LIST_OPS`: the list-operation tabs and the action each one stands for. */
  const ListOps: map<string, Action> := map[
    "List" := ScheduleIncrement,
    "Add" := ScheduleDecrement,
    "Edit" := ScheduleIncrement,
    "Delete" := ScheduleDecrement
  ]

  /** `LIST_OPS.len()`: four distinct labels, so four tabs. */
  function ListOpsLen(): (n: nat)
    ensures n == 4
  {
    assert ListOps.Keys == {"List", "Add", "Edit", "Delete"};
    |ListOps|
  }

  /** The fields of `MainMenu`; `connected` says whether `action_tx` has been set. */
  datatype State = State(showHelp: bool, connected: bool, keymap: map<seq<KeyEvent>, Action>, todoOpIndex: Usize)

  /** `MainMenu::new()`, that is `MainMenu::default()`: the first tab, no sender, no keymap. */
  const Default := State(false, false, map[], 0)

  /** The selected tab is one of the `LIST_OPS` tabs. */
  predicate Valid(s: State) {
    s.todoOpIndex < ListOpsLen()
  }

  /**
   * `navigate_list`, in every mode: `Left` and `Right` move the selected tab
   * round the row, `Up` and `Down` change nothing.
   */
  function Navigated(s: State, dir: ListNavDirection): (r: State)
    requires Valid(s)
    ensures Valid(r)
    ensures r.(todoOpIndex := s.todoOpIndex) == s
    ensures dir.Left? ==> (r.todoOpIndex + 1) % ListOpsLen() == s.todoOpIndex
    ensures dir.Right? ==> r.todoOpIndex == (s.todoOpIndex + 1) % ListOpsLen()
    ensures dir.Up? || dir.Down? ==> r == s
  {
    match dir
    case Left => s.(todoOpIndex := TabCycle.Prev(s.todoOpIndex, ListOpsLen()))
    case Right => s.(todoOpIndex := TabCycle.Next(s.todoOpIndex, ListOpsLen()))
    case _ => s
  }

  /** `Component::update`: only `NavigateList` has an effect (the answer is always `None`). */
  function Updated(s: State, a: Action): (r: State)
    requires Valid(s)
    ensures Valid(r)
    ensures !a.NavigateList? ==> r == s
  {
    match a
    case NavigateList(dir) => Navigated(s, dir)
    case _ => s
  }

  /** `Left` from the first tab selects the last one; from any other tab, the one before. */
  lemma {:induction false} LeftSteps(s: State)
    requires Valid(s)
    ensures Updated(s, NavigateList(Left)).todoOpIndex ==
            if s.todoOpIndex == 0 then ListOpsLen() - 1 else s.todoOpIndex - 1
  {
    var r := Updated(s, NavigateList(Left));
    assert (r.todoOpIndex + 1) % 4 == s.todoOpIndex;
    if r.todoOpIndex == 3 {
      assert s.todoOpIndex == 0;
    } else {
      assert s.todoOpIndex == r.todoOpIndex + 1;
    }
  }

  /** `Right` from the last tab selects the first one; from any other tab, the one after. */
  lemma {:induction false} RightSteps(s: State)
    requires Valid(s)
    ensures Updated(s, NavigateList(Right)).todoOpIndex ==
            if s.todoOpIndex == ListOpsLen() - 1 then 0 else s.todoOpIndex + 1
  {
    var r := Updated(s, NavigateList(Right));
    assert r.todoOpIndex == (s.todoOpIndex + 1) % 4;
  }

  /** `Left` then `Right`, or `Right` then `Left`, comes back to the same tab. */
  lemma {:induction false} LeftRightRestores(s: State)
    requires Valid(s)
    ensures Updated(Updated(s, NavigateList(Left)), NavigateList(Right)) == s
    ensures Updated(Updated(s, NavigateList(Right)), NavigateList(Left)) == s
  {
    TabCycle.PrevNextInverse(s.todoOpIndex, ListOpsLen());
  }
}

/** The main menu as the object the source updates in place. */
module MainMenuComponent {
  import opened Wrappers
  import opened Ints
  import opened Keys
  import FlatActions
  import opened MainMenuModel

  class MainMenu {
    var showHelp: bool
    var connected: bool
    var keymap: map<seq<KeyEvent>, FlatActions.Action>
    var todoOpIndex: Usize

    function State(): MainMenuModel.State
      reads this
    {
      MainMenuModel.State(showHelp, connected, keymap, todoOpIndex)
    }

    predicate Valid()
      reads this
    {
      MainMenuModel.Valid(State())
    }

    /** `MainMenu::new`. */
    constructor()
      ensures State() == Default && Valid()
    {
      showHelp := false;
      connected := false;
      keymap := map[];
      todoOpIndex := 0;
    }

    /** `set_keymap`. */
    method SetKeymap(keymap: map<seq<KeyEvent>, FlatActions.Action>)
      modifies this
      ensures State() == old(State()).(keymap := keymap)
    {
      this.keymap := keymap;
    }

    /** `register_action_handler`. */
    method RegisterActionHandler()
      modifies this
      ensures State() == old(State()).(connected := true)
    {
      connected := true;
    }

    method NavigateList(dir: FlatActions.ListNavDirection)
      requires Valid()
      modifies this
      ensures State() == Navigated(old(State()), dir) && Valid()
    {
      match dir {
        case Left =>
          if todoOpIndex == 0 {
            todoOpIndex := ListOpsLen() - 1;
          } else {
            todoOpIndex := todoOpIndex - 1;
          }
        case Right =>
          todoOpIndex := if todoOpIndex == ListOpsLen() - 1 then 0 else todoOpIndex + 1;
        case _ =>
      }
    }

    method Update(action: FlatActions.Action) returns (r: Option<FlatActions.Action>)
      requires Valid()
      modifies this
      ensures State() == Updated(old(State()), action) && Valid()
      ensures r.None?
    {
      if action.NavigateList? {
        NavigateList(action.direction);
      }
      r := None;
    }
  }
}
