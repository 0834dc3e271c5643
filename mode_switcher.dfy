/**
 * The mode picker of `src/components/mode_switcher.rs`: a popup list over the
 * two modes whose `Up`/`Down` navigation asks the dispatch loop to change mode,
 * and whose visibility an engine action toggles.
 */
module ModeSwitcherModel {
  import opened Wrappers
  import opened Ints
  import opened Actions
  import Modes

  /** `MODES`: the label and the mode of each list entry, in display order. */
  const ModeList: seq<(string, Modes.Mode)> := [("Main Menu", Modes.MainMenu), ("Home", Modes.Home)]

  /**
   * The fields of `ModeSwitcher`; `selected` is the selection held by
   * `mode_list_state`.
   */
  datatype State = State(showMenu: bool, currentIndex: Usize, selected: Option<nat>)

  /** The entry index stays on the list. */
  predicate Valid(s: State) {
    s.currentIndex < |ModeList|
  }

  /** The position of `m` in `MODES`: the first entry whose mode is `m`. Every mode has one. */
  function IndexOf(m: Modes.Mode): (i: nat)
    ensures i < |ModeList| && ModeList[i].1 == m
    ensures forall j :: 0 <= j < i ==> ModeList[j].1 != m
  {
    assert ModeList[0].1 == Modes.MainMenu && ModeList[1].1 == Modes.Home;
    if m == Modes.MainMenu then 0 else 1
  }

  /** `ModeSwitcher::new`: hidden, on the entry of the active mode, with that entry selected. */
  function Initial(active: Modes.Mode): (s: State)
    ensures Valid(s) && !s.showMenu
    ensures ModeList[s.currentIndex].1 == active && s.selected == Some(s.currentIndex)
  {
    var i := IndexOf(active);
    State(false, i, Some(i))
  }

  /**
   * The index `select_mode(offset)` moves to: `None` when the signed sum
   * leaves `usize`, otherwise the sum clamped onto the list.
   */
  function Target(index: Usize, offset: Isize): (r: Option<Usize>)
    ensures r.Some? <==> 0 <= index + offset <= UsizeMax
    ensures r.Some? ==> r.value < |ModeList|
    ensures r.Some? && index + offset < |ModeList| ==> r.value == index + offset
    ensures r.Some? && |ModeList| <= index + offset ==> r.value == |ModeList| - 1
  {
    match CheckedAddSigned(index, offset)
    case None => None
    case Some(ni) => Some(Clamp(ni, 0, |ModeList| - 1))
  }

  /**
   * `select_mode`: on a target, move there, select it and ask for its mode,
   * even when the clamp left the index where it was; otherwise change nothing.
   */
  function SelectMode(s: State, offset: Isize): (r: (State, Option<Action>))
    requires Valid(s)
    ensures Valid(r.0) && r.0.showMenu == s.showMenu
    ensures r.1.None? <==> s.currentIndex + offset < 0
    ensures r.1.None? ==> r.0 == s
    ensures r.1.Some? ==> r.0.selected == Some(r.0.currentIndex)
                          && r.1.value == Engine(ChangeMode(ModeList[r.0.currentIndex].1))
    ensures r.1.Some? ==> Target(s.currentIndex, offset) == Some(r.0.currentIndex)
    ensures r.1.Some? ==> r.0.currentIndex == if s.currentIndex + offset < |ModeList|
                                              then s.currentIndex + offset else |ModeList| - 1
    ensures r.1.Some? ==> r.0 == s.(currentIndex := r.0.currentIndex, selected := Some(r.0.currentIndex))
  {
    match Target(s.currentIndex, offset)
    case None => (s, None)
    case Some(ni) => (s.(currentIndex := ni, selected := Some(ni)), Some(Engine(ChangeMode(ModeList[ni].1))))
  }

  /**
   * `Component::update`: `NavigateList(Up)` and `NavigateList(Down)` select the
   * previous and next entry, `ToggleShowModeSwitcher` shows or hides the list,
   * and every other action is ignored.
   */
  function Update(s: State, a: Action): (r: (State, Option<Action>))
    requires Valid(s)
    ensures Valid(r.0)
    ensures r.1.Some? ==> r.1.value.Engine? && r.1.value.engine.ChangeMode?
    ensures a == Action.Home(NavigateList(Up)) ==> r == SelectMode(s, -1)
    ensures a == Action.Home(NavigateList(Down)) ==> r == SelectMode(s, 1)
    ensures a == Engine(ToggleShowModeSwitcher) ==> r == (s.(showMenu := !s.showMenu), None)
  {
    match a
    case Home(NavigateList(Up)) => SelectMode(s, -1)
    case Home(NavigateList(Down)) => SelectMode(s, 1)
    case Engine(ToggleShowModeSwitcher) => (s.(showMenu := !s.showMenu), None)
    case _ => (s, None)
  }

  /** Only list navigation up or down and the visibility toggle have an effect. */
  lemma {:induction false} UpdateIgnores(s: State, a: Action)
    requires Valid(s)
    requires a != Home(NavigateList(Up)) && a != Home(NavigateList(Down)) && a != Engine(ToggleShowModeSwitcher)
    ensures Update(s, a) == (s, None)
  {
    match a
    case Engine(e) =>
      assert e != ToggleShowModeSwitcher;
    case Home(h) =>
      if h.NavigateList? {
        assert h.direction.Left? || h.direction.Right?;
      }
  }

  /** Toggling twice restores the visibility, and a toggle leaves the selection alone. */
  lemma ToggleTwice(s: State)
    requires Valid(s)
    ensures Update(s, Engine(ToggleShowModeSwitcher)).0.(showMenu := s.showMenu) == s
    ensures Update(Update(s, Engine(ToggleShowModeSwitcher)).0, Engine(ToggleShowModeSwitcher)).0 == s
  {
  }

  /** From the first entry `Up` has no target (the sum is negative): nothing changes and nothing is asked. */
  lemma UpAtTop(s: State)
    requires Valid(s) && s.currentIndex == 0
    ensures Update(s, Home(NavigateList(Up))) == (s, None)
  {
  }

  /** From the last entry `Down` is clamped back onto it, and Home is asked for again. */
  lemma {:induction false} DownAtBottom(s: State)
    requires Valid(s) && s.currentIndex == |ModeList| - 1
    ensures Update(s, Home(NavigateList(Down))) ==
            (s.(selected := Some(s.currentIndex)), Some(Engine(ChangeMode(Modes.Home))))
  {
    assert Target(1, 1) == Some(1);
    assert ModeList[1].1 == Modes.Home;
  }

  /** `Down` then `Up` from the first entry comes back to it, asking for Home and then the main menu. */
  lemma {:induction false} DownThenUp(s: State)
    requires Valid(s) && s.currentIndex == 0
    ensures Update(s, Home(NavigateList(Down))).1 == Some(Engine(ChangeMode(Modes.Home)))
    ensures Update(Update(s, Home(NavigateList(Down))).0, Home(NavigateList(Up))).0 == s.(selected := Some(0))
  {
    assert Target(0, 1) == Some(1);
    assert Target(1, -1) == Some(0);
  }
}

/** The mode picker as the object the source updates in place. */
module ModeSwitcherComponent {
  import opened Wrappers
  import opened Ints
  import Modes
  import Actions
  import opened ModeSwitcherModel

  class ModeSwitcher {
    var showMenu: bool
    var currentIndex: Usize
    var selected: Option<nat>

    function State(): ModeSwitcherModel.State
      reads this
    {
      ModeSwitcherModel.State(showMenu, currentIndex, selected)
    }

    predicate Valid()
      reads this
    {
      ModeSwitcherModel.Valid(State())
    }

    /** `ModeSwitcher::new`. */
    constructor(active: Modes.Mode)
      ensures State() == Initial(active) && Valid()
    {
      var index := 0;
      while ModeList[index].1 != active
        invariant 0 <= index <= IndexOf(active)
        decreases IndexOf(active) - index
      {
        index := index + 1;
      }
      showMenu := false;
      currentIndex := index;
      selected := Some(index);
    }

    method SelectMode(offset: Isize) returns (r: Option<Actions.Action>)
      requires Valid()
      modifies this
      ensures (State(), r) == ModeSwitcherModel.SelectMode(old(State()), offset) && Valid()
    {
      var target := CheckedAddSigned(currentIndex, offset);
      if target.None? {
        return None;
      }
      currentIndex := Clamp(target.value, 0, |ModeList| - 1);
      selected := Some(currentIndex);
      r := Some(Actions.Engine(Actions.ChangeMode(ModeList[currentIndex].1)));
    }

    method Update(action: Actions.Action) returns (r: Option<Actions.Action>)
      requires Valid()
      modifies this
      ensures (State(), r) == ModeSwitcherModel.Update(old(State()), action) && Valid()
    {
      if action == Actions.Home(Actions.NavigateList(Actions.Up)) {
        r := SelectMode(-1);
      } else if action == Actions.Home(Actions.NavigateList(Actions.Down)) {
        r := SelectMode(1);
      } else if action == Actions.Engine(Actions.ToggleShowModeSwitcher) {
        showMenu := !showMenu;
        r := None;
      } else {
        UpdateIgnores(State(), action);
        r := None;
      }
    }
  }
}
