/**
 * The keybinding help overlay of `src/components/help_screen.rs`: the list of
 * modes it watches, its visibility toggle, and the rows of the table it draws
 * from the keybinding configuration.
 */
module HelpScreenModel {
  import opened Keys
  import opened Modes
  import opened Actions
  import opened Dispatch

  /** No element occurs twice. */
  predicate NoDuplicates<T(==)>(s: seq<T>) {
    forall i, j :: 0 <= i < j < |s| ==> s[i] != s[j]
  }

  /**
   * `add_mode`: `m` is appended exactly when it is not watched yet, so the
   * watched modes keep their order, gain `m`, and stay free of duplicates.
   */
  function AddMode(watched: seq<Mode>, m: Mode): (r: seq<Mode>)
    ensures |r| == if m in watched then |watched| else |watched| + 1
    ensures r[..|watched|] == watched
    ensures forall x :: x in r <==> x in watched || x == m
    ensures NoDuplicates(watched) ==> NoDuplicates(r)
  {
    if m in watched then watched else watched + [m]
  }

  /** Adding a mode a second time changes nothing. */
  lemma AddModeIdempotent(watched: seq<Mode>, m: Mode)
    ensures AddMode(AddMode(watched, m), m) == AddMode(watched, m)
  {
  }

  /** `update`: the overlay is shown or hidden exactly on the engine's `ToggleShowHelp`. */
  function ShowAfter(show: bool, a: Action): (r: bool)
    ensures r != show <==> a == Engine(EngineAction.ToggleShowHelp)
  {
    if a == Engine(EngineAction.ToggleShowHelp) then !show else show
  }

  /** Two toggles restore the visibility; Home's own `ToggleShowHelp` never changes it. */
  lemma ToggleTwice(show: bool)
    ensures ShowAfter(ShowAfter(show, Engine(EngineAction.ToggleShowHelp)), Engine(EngineAction.ToggleShowHelp)) == show
    ensures ShowAfter(show, Action.Home(HomeAction.ToggleShowHelp)) == show
  {
  }

  /** A row of the help table: the gap before a mode, the mode's title, or one binding. */
  datatype Row = Blank | Header(title: string) | Binding(keys: string, action: string)

  /** The strings of `parts` one after the other (`collect` into a `String`). */
  function Concat(parts: seq<string>): string {
    if parts == [] then "" else parts[0] + Concat(parts[1..])
  }

  /** Each key's description, every one after the first preceded by `", "`. */
  function KeyPieces(describe: KeyEvent -> string, chord: seq<KeyEvent>): seq<string> {
    seq(|chord|, i requires 0 <= i < |chord| => if i == 0 then describe(chord[i]) else ", " + describe(chord[i]))
  }

  /** The key cell of a binding row. */
  function KeyCell(describe: KeyEvent -> string, chord: seq<KeyEvent>): string {
    Concat(KeyPieces(describe, chord))
  }

  /** `parts` joined with `sep` between neighbours, the usual reading of a separated list. */
  function JoinWith(sep: string, parts: seq<string>): string {
    if |parts| == 0 then ""
    else if |parts| == 1 then parts[0]
    else parts[0] + sep + JoinWith(sep, parts[1..])
  }

  /** The descriptions of a chord's keys, in order. */
  function Descriptions(describe: KeyEvent -> string, chord: seq<KeyEvent>): (r: seq<string>)
    ensures |r| == |chord|
  {
    seq(|chord|, i requires 0 <= i < |chord| => describe(chord[i]))
  }

  /** The key cell is the key descriptions joined with `", "`: no separator in front, one between neighbours. */
  lemma KeyCellJoins(describe: KeyEvent -> string, chord: seq<KeyEvent>)
    ensures KeyCell(describe, chord) == JoinWith(", ", Descriptions(describe, chord))
  {
    if chord != [] {
      var rest := Descriptions(describe, chord[1..]);
      assert KeyPieces(describe, chord) == [describe(chord[0])] + SeparatedEach(rest);
      ConcatCons(describe(chord[0]), SeparatedEach(rest));
      SeparatedJoin(describe(chord[0]), rest);
      assert Descriptions(describe, chord) == [describe(chord[0])] + rest;
    }
  }

  /** Every part preceded by `", "`. */
  function SeparatedEach(parts: seq<string>): (r: seq<string>)
    ensures |r| == |parts|
  {
    seq(|parts|, i requires 0 <= i < |parts| => ", " + parts[i])
  }

  lemma ConcatCons(first: string, rest: seq<string>)
    ensures Concat([first] + rest) == first + Concat(rest)
  {
    assert ([first] + rest)[1..] == rest;
  }

  lemma {:induction false} SeparatedJoin(first: string, rest: seq<string>)
    ensures first + Concat(SeparatedEach(rest)) == JoinWith(", ", [first] + rest)
    decreases |rest|
  {
    if rest == [] {
      assert SeparatedEach(rest) == [];
    } else {
      SeparatedJoin(rest[0], rest[1..]);
      assert SeparatedEach(rest) == [", " + rest[0]] + SeparatedEach(rest[1..]);
      ConcatCons(", " + rest[0], SeparatedEach(rest[1..]));
      assert ([first] + rest)[1..] == [rest[0]] + rest[1..];
    }
  }

  /**
   * `order` lists the chords of `table` once each: the iteration order of the
   * `HashMap`, which the model takes as given.
   */
  ghost predicate Enumerates(order: seq<seq<KeyEvent>>, table: Keymap) {
    NoDuplicates(order) && (forall c :: c in order <==> c in table)
  }

  /** The binding rows of one table, in `order`; the action cell is the action's `Display`. */
  function BindingRows(describe: KeyEvent -> string, table: Keymap, order: seq<seq<KeyEvent>>): (r: seq<Row>)
    requires forall c :: c in order ==> c in table
    ensures |r| == |order|
    ensures forall i :: 0 <= i < |order| ==> r[i] == Binding(KeyCell(describe, order[i]), Display(table[order[i]]))
  {
    seq(|order|, i requires 0 <= i < |order| => Binding(KeyCell(describe, order[i]), Display(table[order[i]])))
  }

  /** The rows of one watched mode: a blank row, the mode's `{:?}` name, then its bindings. */
  function ModeRows(describe: KeyEvent -> string, m: Mode, table: Keymap, order: seq<seq<KeyEvent>>): (r: seq<Row>)
    requires forall c :: c in order ==> c in table
    ensures |r| == 2 + |order| && r[0] == Blank && r[1] == Header(ModeName(m))
    ensures r[2..] == BindingRows(describe, table, order)
  {
    [Blank, Header(ModeName(m))] + BindingRows(describe, table, order)
  }

  /**
   * What `draw_help` needs: each watched mode has a keybinding table (the
   * `unwrap` panics otherwise) and an enumeration of it.
   */
  ghost predicate Drawable(watched: seq<Mode>, kb: Keybindings, orders: map<Mode, seq<seq<KeyEvent>>>) {
    forall m :: m in watched ==> m in kb && m in orders && Enumerates(orders[m], kb[m])
  }

  /** The rows of the help table: the rows of each watched mode, in watched order. */
  function HelpRows(describe: KeyEvent -> string, watched: seq<Mode>, kb: Keybindings,
                    orders: map<Mode, seq<seq<KeyEvent>>>): seq<Row>
    requires Drawable(watched, kb, orders)
  {
    if watched == [] then []
    else ModeRows(describe, watched[0], kb[watched[0]], orders[watched[0]]) + HelpRows(describe, watched[1..], kb, orders)
  }

  /** The row count of `draw_help`: per watched mode, two plus one per binding. */
  function RowCount(watched: seq<Mode>, kb: Keybindings): nat
    requires forall m :: m in watched ==> m in kb
  {
    if watched == [] then 0 else 2 + |kb[watched[0]]| + RowCount(watched[1..], kb)
  }

  /** A duplicate-free sequence has as many distinct elements as entries. */
  lemma {:induction false} DistinctCount<T>(s: seq<T>)
    requires NoDuplicates(s)
    ensures |set x | x in s| == |s|
  {
    if s != [] {
      var rest := s[1..];
      assert NoDuplicates(rest) by {
        forall i, j | 0 <= i < j < |rest| ensures rest[i] != rest[j] {
          assert rest[i] == s[i + 1] && rest[j] == s[j + 1];
        }
      }
      DistinctCount(rest);
      assert (set x | x in s) == (set x | x in rest) + {s[0]};
      assert s[0] !in rest by {
        forall j | 0 <= j < |rest| ensures rest[j] != s[0] {
          assert rest[j] == s[j + 1];
        }
      }
    }
  }

  /** An enumeration of a table is as long as the table. */
  lemma EnumerationLength(order: seq<seq<KeyEvent>>, table: Keymap)
    requires Enumerates(order, table)
    ensures |order| == |table|
  {
    DistinctCount(order);
    assert (set x | x in order) == table.Keys;
  }

  /** The table has exactly `RowCount` rows. */
  lemma {:induction false} HelpRowsCount(describe: KeyEvent -> string, watched: seq<Mode>, kb: Keybindings,
                                         orders: map<Mode, seq<seq<KeyEvent>>>)
    requires Drawable(watched, kb, orders)
    ensures |HelpRows(describe, watched, kb, orders)| == RowCount(watched, kb)
  {
    if watched != [] {
      var m := watched[0];
      EnumerationLength(orders[m], kb[m]);
      HelpRowsCount(describe, watched[1..], kb, orders);
    }
  }

  /** The titles of the header rows, in order. */
  function Headers(rows: seq<Row>): seq<string> {
    if rows == [] then []
    else (if rows[0].Header? then [rows[0].title] else []) + Headers(rows[1..])
  }

  lemma {:induction false} HeadersConcat(a: seq<Row>, b: seq<Row>)
    ensures Headers(a + b) == Headers(a) + Headers(b)
    decreases |a|
  {
    if a != [] {
      assert (a + b)[0] == a[0];
      assert (a + b)[1..] == a[1..] + b;
      HeadersConcat(a[1..], b);
    } else {
      assert a + b == b;
    }
  }

  lemma {:induction false} NoBindingHeaders(rows: seq<Row>)
    requires forall i :: 0 <= i < |rows| ==> rows[i].Binding?
    ensures Headers(rows) == []
    decreases |rows|
  {
    if rows != [] {
      NoBindingHeaders(rows[1..]);
    }
  }

  /** The header rows name the watched modes, once each and in the order they are watched. */
  lemma {:induction false} HeadersAreWatched(describe: KeyEvent -> string, watched: seq<Mode>, kb: Keybindings,
                                             orders: map<Mode, seq<seq<KeyEvent>>>)
    requires Drawable(watched, kb, orders)
    ensures Headers(HelpRows(describe, watched, kb, orders)) == seq(|watched|, i requires 0 <= i < |watched| => ModeName(watched[i]))
  {
    if watched != [] {
      var m := watched[0];
      var bindings := BindingRows(describe, kb[m], orders[m]);
      var rest := HelpRows(describe, watched[1..], kb, orders);
      HeadersConcat([Blank, Header(ModeName(m))] + bindings, rest);
      HeadersConcat([Blank, Header(ModeName(m))], bindings);
      NoBindingHeaders(bindings);
      assert Headers([Blank, Header(ModeName(m))]) == [ModeName(m)] by {
        assert [Blank, Header(ModeName(m))][1..] == [Header(ModeName(m))];
        assert [Header(ModeName(m))][1..] == [];
      }
      HeadersAreWatched(describe, watched[1..], kb, orders);
    }
  }

  /** Every part of a drawable list of modes is drawable. */
  lemma DrawableParts(a: seq<Mode>, b: seq<Mode>, kb: Keybindings, orders: map<Mode, seq<seq<KeyEvent>>>)
    requires Drawable(a + b, kb, orders)
    ensures Drawable(a, kb, orders) && Drawable(b, kb, orders)
  {
    assert forall m :: m in a ==> m in a + b;
    assert forall m :: m in b ==> m in a + b;
  }

  /** The rows of `a + b` are the rows of `a` followed by the rows of `b`. */
  lemma {:induction false} HelpRowsAppend(describe: KeyEvent -> string, a: seq<Mode>, b: seq<Mode>, kb: Keybindings,
                                          orders: map<Mode, seq<seq<KeyEvent>>>)
    requires Drawable(a + b, kb, orders)
    ensures Drawable(a, kb, orders) && Drawable(b, kb, orders)
    ensures HelpRows(describe, a + b, kb, orders) == HelpRows(describe, a, kb, orders) + HelpRows(describe, b, kb, orders)
    decreases |a|
  {
    DrawableParts(a, b, kb, orders);
    if a != [] {
      var m := a[0];
      assert (a + b)[0] == m;
      assert (a + b)[1..] == a[1..] + b;
      var block := ModeRows(describe, m, kb[m], orders[m]);
      HelpRowsAppend(describe, a[1..], b, kb, orders);
      calc {
        HelpRows(describe, a + b, kb, orders);
        block + HelpRows(describe, a[1..] + b, kb, orders);
        block + (HelpRows(describe, a[1..], kb, orders) + HelpRows(describe, b, kb, orders));
        (block + HelpRows(describe, a[1..], kb, orders)) + HelpRows(describe, b, kb, orders);
      }
    } else {
      assert a + b == b;
    }
  }

  /** Watching a new mode adds that mode's rows at the bottom and leaves the rows above alone. */
  lemma AddModeRows(describe: KeyEvent -> string, watched: seq<Mode>, m: Mode, kb: Keybindings,
                    orders: map<Mode, seq<seq<KeyEvent>>>)
    requires Drawable(AddMode(watched, m), kb, orders)
    ensures Drawable(watched, kb, orders)
    ensures HelpRows(describe, AddMode(watched, m), kb, orders) ==
            if m in watched then HelpRows(describe, watched, kb, orders)
            else HelpRows(describe, watched, kb, orders) + ModeRows(describe, m, kb[m], orders[m])
  {
    if m !in watched {
      assert AddMode(watched, m) == watched + [m];
      HelpRowsAppend(describe, watched, [m], kb, orders);
      assert HelpRows(describe, [m], kb, orders) == ModeRows(describe, m, kb[m], orders[m]) by {
        assert [m][1..] == [];
      }
    } else {
      assert AddMode(watched, m) == watched;
    }
  }
}

/** The help overlay as the object the source updates in place. */
module HelpScreenComponent {
  import opened Wrappers
  import Modes
  import Actions
  import Dispatch
  import opened HelpScreenModel

  class HelpScreen {
    var showHelp: bool
    var watchedModes: seq<Modes.Mode>
    /** The keybinding tables of the registered configuration. */
    var keybindings: Dispatch.Keybindings

    /** `HelpScreen::new`: hidden, watching the given modes, with the default (empty) configuration. */
    constructor(watchedModes: seq<Modes.Mode>)
      ensures !showHelp && this.watchedModes == watchedModes && keybindings == map[]
    {
      showHelp := false;
      this.watchedModes := watchedModes;
      keybindings := map[];
    }

    /** `register_config_handler`. */
    method RegisterConfig(keybindings: Dispatch.Keybindings)
      modifies this
      ensures this.keybindings == keybindings
      ensures showHelp == old(showHelp) && watchedModes == old(watchedModes)
    {
      this.keybindings := keybindings;
    }

    method AddMode(m: Modes.Mode)
      modifies this
      ensures watchedModes == HelpScreenModel.AddMode(old(watchedModes), m)
      ensures showHelp == old(showHelp) && keybindings == old(keybindings)
    {
      if m !in watchedModes {
        watchedModes := watchedModes + [m];
      }
    }

    method Update(action: Actions.Action) returns (r: Option<Actions.Action>)
      modifies this
      ensures showHelp == ShowAfter(old(showHelp), action)
      ensures watchedModes == old(watchedModes) && keybindings == old(keybindings)
      ensures r.None?
    {
      if action == Actions.Engine(Actions.EngineAction.ToggleShowHelp) {
        showHelp := !showHelp;
      }
      r := None;
    }

    /** The rows `draw_help` lays out, from the current configuration. */
    function Rows(describe: Keys.KeyEvent -> string, orders: map<Modes.Mode, seq<seq<Keys.KeyEvent>>>): (rows: seq<Row>)
      reads this
      requires Drawable(watchedModes, keybindings, orders)
      ensures |rows| == RowCount(watchedModes, keybindings)
    {
      HelpRowsCount(describe, watchedModes, keybindings, orders);
      HelpRows(describe, watchedModes, keybindings, orders)
    }
  }
}
