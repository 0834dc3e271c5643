/**
 * The wrap-around tab index shared by `Home::navigate_list` and
 * `MainMenu::navigate_list`: `Left` and `Right` move one tab back or forward
 * over a row of `len` tabs, stepping off either end onto the other.
 */
module TabCycle {

  /** `Left`: the first tab goes to the last, every other tab one back. */
  function Prev(i: nat, len: nat): (r: nat)
    requires 0 < len
    ensures i < len ==> r < len && (r + 1) % len == i
  {
    if i == 0 then len - 1 else i - 1
  }

  /** `Right`: the last tab goes to the first, every other tab one forward. */
  function Next(i: nat, len: nat): (r: nat)
    requires 0 < len
    ensures i < len ==> r < len && r == (i + 1) % len
  {
    if i == len - 1 then 0 else i + 1
  }

  /** Within the row, `Left` and `Right` undo each other. */
  lemma PrevNextInverse(i: nat, len: nat)
    requires i < len
    ensures Next(Prev(i, len), len) == i
    ensures Prev(Next(i, len), len) == i
  {
  }

}
