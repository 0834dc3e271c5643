# ratatui-experimentation: the action-dispatch core in Dafny

This project models the core of a terminal application built on ratatui.

- **Actions.** Actions name everything that can happen. The engine family (`Engine.Tick`, `Engine.Resize(80, 24)`, `Engine.Quit`, …) drives the process. The Home family (`Home.NavigateList(Left)`, `Home.ScheduleIncrement`, …) drives the Home screen.
- **Decoding.** The keybinding configuration names actions as text. Two decoders turn that text back into actions:
  - the namespaced one of `src/actions.rs`, which expects the `Engine.` / `Home.` prefix;
  - the older flat one of `src/action.rs`, which uses no prefix.
- **Dispatch loop.** `App::run` in `src/app.rs` works in rounds:
  - it turns each terminal event into an action, and resolves a key through the active mode's keybinding table (single keys first, then the buffered chord);
  - it queues those actions on an unbounded channel;
  - it drains the channel in FIFO order: each action first updates the loop's own state (mode, quit, suspend, key buffer), then goes to every component in turn, and a component's answer is queued behind the rest;
  - after the drain it decides whether to suspend (and resume), quit, or go on.
- **Components.** Each is a small state machine:
  - the Home screen: saturating counters, an input-mode machine, a wrap-around tab selection, and scheduled batches of actions;
  - the mode switcher: a clamped index over the two modes;
  - the main menu: a wrap-around tab selection over the flat action type;
  - the help overlay: a duplicate-free list of watched modes, a visibility toggle, and the rows of its keybinding table.

## How the model is organised

Code that only computes a value is written as datatypes, functions and lemmas. These are `Text`, `ActionSyntax`, `Actions`, `FlatActions`, `Dispatch`, `TabCycle` and the `…Model` modules.

Code that updates objects in place is written as classes whose methods have `modifies` clauses:

- `AppLoop.App`
- `HomeComponent.Home`
- `ModeSwitcherComponent.ModeSwitcher`
- `MainMenuComponent.MainMenu`
- `HelpScreenComponent.HelpScreen`

Each method is proved to leave the object in the state that a specification function of the matching value-level module computes. The lemmas about that function then carry over to the method.

| file | modules |
|---|---|
| `wrappers.dfy` | `Wrappers`: `Option`, `Result` |
| `ints.dfy` | `Ints`: `u16`, `usize`, `isize` and their saturating / checked operations |
| `text.dfy` | `Text`: the Rust `str` operations the decoders use (`split`, `trim_start_matches`, `trim_end_matches`, `split` on a character set, `trim`, `parse::<u16>`) |
| `keys.dfy` | `Keys` (crossterm key events), `Modes` (`app::Mode`) |
| `action_syntax.dfy` | `ActionSyntax`: the argument grammar shared by both decoders, and the decode errors |
| `actions.dfy` | `Actions`: `src/actions.rs` |
| `flat_actions.dfy` | `FlatActions`: `src/action.rs` |
| `dispatch.dfy` | `TuiEvents`, `Dispatch`: `App::run` as functions |
| `app.dfy` | `AppLoop`: the `App` class |
| `tab_cycle.dfy` | `TabCycle`: the wrap-around tab index shared by Home and the main menu |
| `home.dfy` | `HomeModel`, `HomeComponent` |
| `mode_switcher.dfy` | `ModeSwitcherModel`, `ModeSwitcherComponent` |
| `main_menu.dfy` | `MainMenuModel`, `MainMenuComponent` |
| `help_screen.dfy` | `HelpScreenModel`, `HelpScreenComponent` |

Decisions that shape the model:

- **Decode errors.** A decode error is a value of `ActionSyntax.DecodeError`. The Serde error type is not modelled. Two error cases deserve note:
  - `NavigateList` with no parenthesis indexes `parts[1]` out of bounds, which is a panic in the source. The model returns `MissingDirection` for it.
  - A width or height that does not parse returns the `ParseIntError` kind as `ParseInt`.
- **Family prefix.** `data.split("Engine.").nth(1)` is modelled with Rust's splitting semantics. The payload is the text between the first and the second occurrence of the prefix. `trim_start_matches` strips *every* leading copy of its pattern, and `trim_end_matches(')')` strips every trailing parenthesis.
- **Text forms of the actions.** `EngineAction` and `HomeAction` (src/actions/engine_actions.rs, src/actions/home_action.rs) derive `Debug` but implement no `Display`, although `Display for Action` (src/actions.rs:31-38) formats them with `{x}`. The model assumes the same text the configuration uses, for example `Resize(80, 24)` and `NavigateList(Left)`.
- **Components in `App`.** The components of `App` are abstract: `App<C>` takes the components' `update` and `handle_events` as functions returning a `Reaction` (the component's next state and its optional answer). The real roster cannot be one Dafny type, because the main menu is written against the older flat action type.
- **Drain fuel.** The drain runs on fuel, because a cascade of component answers need not end. A round whose fuel runs out before the channel is empty reports `Stalled`.
- **Help table order.** The help table's rows follow the iteration order of a `HashMap`. The model takes that order as a parameter: one enumeration of each table's chords.
- **Foreign functions.** `key_event_to_string` (`describe`) and the `tui_input` editor (`edit`) are function parameters.
- **Direct sends.** A component's direct sends on its `action_tx` go to a `sent` field of that component. These are the scheduled batches of Home and its `CompleteInput` on Enter.

## Model

| member | source | states |
|---|---|---|
| `Ints.SaturatingAdd` | src/components/home.rs:92 | the result is the true sum when it fits in `usize`, otherwise `usize::MAX`, and never less than the first operand |
| `Ints.SaturatingSub` | src/components/home.rs:96 | the result is the true difference when it is not negative, otherwise 0, and never more than the first operand |
| `Ints.CheckedAddSigned` | src/components/mode_switcher.rs:34 | `None` exactly when the signed sum leaves `usize`, otherwise that sum |
| `Ints.Clamp` | src/components/mode_switcher.rs:34 | the result lies in `[lo, hi]`, equals `x` inside it and the nearer bound outside it |
| `Text.Find` | src/actions.rs:63 | the first position where the pattern occurs; `None` iff the text does not contain it |
| `Text.NoMatchBeforeFirst` | src/actions.rs:63 | a text cut before the first match does not contain the pattern |
| `Text.NoMatchBefore` | src/actions.rs:63 | no occurrence starts before `i` when one of the pattern's characters is missing where it would have to be |
| `Text.FindAt` | src/actions.rs:63 | an occurrence with none before it is the first one, and the first piece ends there |
| `Text.SplitStr` | src/actions.rs:63 | `str::split` on a pattern: the pieces rejoined with the pattern give the text back, no piece contains the pattern, and a text starting with the pattern splits into an empty first piece and more |
| `Text.UpToFirst` | src/actions.rs:63 | a prefix of the text that does not contain the pattern, and all of the text when it contains no pattern |
| `Text.SecondPiece` | src/actions.rs:63 | after a leading pattern, `split(pat).nth(1)` is the rest up to the next occurrence |
| `Text.SplitChars` | src/actions.rs:101 | `str::split` on a character set: at least one piece, and no piece contains a separator |
| `Text.SplitCharJoin` | src/actions.rs:78 | the pieces of a split on one character, rejoined with it, give the text back |
| `Text.SplitCharsNone` | src/actions.rs:101 | a text without separators is one piece |
| `Text.SplitCharsFirst` | src/actions.rs:101 | the first separator ends the first piece |
| `Text.TrimStartMatches` | src/actions.rs:74 | a suffix of the text that no longer starts with the pattern (every leading copy removed) |
| `Text.TrimStartOnce` | src/actions.rs:74 | one copy of the pattern before a text that does not start with it is removed exactly |
| `Text.TrimEndMatches` | src/actions.rs:74 | a prefix of the text; all removed characters are the given one and the result does not end with it |
| `Text.TrimEndOnce` | src/actions.rs:74 | one trailing copy after a text that does not end with it is removed exactly |
| `Text.TrimStartWhitespace` | src/actions.rs:80 | a suffix; everything removed is Unicode whitespace and the result does not start with whitespace |
| `Text.TrimEndWhitespace` | src/actions.rs:80 | a prefix; everything removed is Unicode whitespace and the result does not end with whitespace |
| `Text.Trim` | src/actions.rs:80 | the result neither starts nor ends with whitespace |
| `Text.TrimKeeps` | src/actions.rs:80 | a text with no whitespace at either end is unchanged by `trim` |
| `Text.TrimDecimal` | src/actions.rs:80-81 | a decimal numeral, with or without the space after a comma, trims to itself |
| `Text.DigitValue` | src/actions.rs:80 | a digit's value is at most 9 |
| `Text.DigitChar` | src/actions.rs:80 | the digit character of a value below 10 has that value |
| `Text.DecimalText` | src/actions.rs:80 | the decimal numeral of `n` is a non-empty digit string whose value is `n` |
| `Text.ParseDigitsAppend` | src/actions.rs:80 | digit-by-digit parsing of `a + b` is parsing `a` and continuing with `b` |
| `Text.ParseDigitsFromZero` | src/actions.rs:80 | a digit string parses iff all its characters are digits and its value fits `u16`, and then to that value |
| `Text.ParseU16Accepts` | src/actions.rs:80-81 | `parse::<u16>` succeeds iff the text is an optional `+` then digits of value at most 65535, and yields that value |
| `Text.ParseDigits` | src/actions.rs:80-81 | definition of the digit-by-digit `u16` parse: overflow beyond 65535 is `PosOverflow`, a non-digit is `InvalidDigit`; see `ParseDigitsAppend`, `ParseDigitsFromZero` |
| `Text.ParseU16` | src/actions.rs:80-81 | definition of `str::parse::<u16>`: empty text is `Empty`, a lone sign is `InvalidDigit`, one leading `+` is allowed; see `ParseU16Accepts`, `ParseDecimalText` |
| `Text.ParseDecimalText` | src/actions.rs:80-81 | every `u16` parses back from its decimal numeral |
| `ActionSyntax.ErrorMessage` | src/actions.rs:74 | the message neither starts with `Error(` nor ends with `)` |
| `ActionSyntax.ErrorMessageOfWrapped` | src/actions.rs:74 | a message that does not start with `Error(` or end with `)`, wrapped as `Error(m)`, is read back as `m` |
| `ActionSyntax.ResizeFields` | src/actions.rs:78 | the comma-separated fields inside `Resize(...)`: at least one |
| `ActionSyntax.ResizeArgs` | src/actions.rs:78-85 | a field count other than two is `Invalid Resize format` of the whole value, and every failure is that or a `u16` parse error |
| `ActionSyntax.ResizeArgsAccepts` | src/actions.rs:78-85 | the arguments are accepted iff there are exactly two fields and each trims to a `u16` numeral, and then the sizes are the parsed fields |
| `ActionSyntax.ResizeArgsIgnoresValue` | src/actions.rs:84 | the whole value only enters the error message: success and sizes depend on the payload alone |
| `ActionSyntax.ResizeInside` | src/actions.rs:78 | stripping `Resize(` and `)` from `Resize(a, b)` leaves `a, b` |
| `ActionSyntax.SplitAtComma` | src/actions.rs:78 | `a, b` splits on `,` into `a` and ` b` |
| `ActionSyntax.ResizeFieldsOfText` | src/actions.rs:78 | the fields of `Resize(w, h)` are the two numerals, the second after a space |
| `ActionSyntax.ResizeArgsOfText` | src/actions.rs:78-82 | `Resize(w, h)` is accepted with exactly the sizes `w` and `h` |
| `ActionSyntax.SplitCharsOnePiece` | src/actions.rs:101 | a split on a character set gives one piece iff no separator occurs |
| `ActionSyntax.DirectionArg` | src/actions.rs:101-103 | `parts[1]` of the split on `(` and `)`: it fails (the out-of-bounds index) iff neither parenthesis occurs, and the found argument has no parenthesis |
| `ActionSyntax.DirectionArgOfText` | src/actions.rs:101-103 | the argument of `NavigateList(d)` is `d` |
| `Modes.ModeName` | src/components/help_screen.rs:59 | the `{:?}` name of a mode is not empty |
| `Actions.FamilyPayload` | src/actions.rs:63 | the payload is no longer than what follows the prefix |
| `Actions.FamilyPayloadIsSecondPiece` | src/actions.rs:63 | the payload is exactly `split(prefix).nth(1)` |
| `Actions.ParseDirection` | src/actions.rs:103-108 | a direction is read iff the text is `Left`, `Right`, `Up` or `Down`, and it prints back as that text |
| `Actions.DecodeEngine` | src/actions.rs:65-88 | what the engine family decodes to is an engine action with a configuration form; its errors are never those of the other family or of an unknown family |
| `Actions.DecodeHome` | src/actions.rs:93-112 | what the Home family decodes to is a Home action with a configuration form; its errors are never those of the other family or of an unknown family |
| `Actions.Decode` | src/actions.rs:57-116 | a decoded action has a configuration form, and it is an engine action iff the text starts with `Engine.` |
| `Actions.Display` | src/actions.rs:31-38 | an engine action prints starting with `Engine.` and not `Home.`; a Home action the other way round |
| `Actions.EngineText` | src/actions.rs:31-38 | definition of the text written after `Engine.`, taken as the configuration's form; see `DisplayRoundTrip`, `ResizeRoundTrip`, `ErrorRoundTrip` |
| `Actions.HomeText` | src/actions.rs:31-38 | definition of the text written after `Home.`, taken as the configuration's form; see `DisplayRoundTrip`, `NavigateRoundTrip` |
| `Actions.MissingCharNoMatch` | src/actions.rs:63 | a text lacking a character of the pattern cannot contain the pattern |
| `Actions.PayloadOf` | src/actions.rs:63 | the payload of prefix + `t` is `t` when `t` does not contain the prefix |
| `Actions.WrappedErrorNoPrefix` | src/actions.rs:63 | wrapping a message that lacks `Engine.` in `Error(...)` does not create one |
| `Actions.EngineFamilyOf` | src/actions.rs:61-63 | `Engine.` followed by text without a second `Engine.` goes to the engine arm with that whole text as payload |
| `Actions.HomeFamilyOf` | src/actions.rs:89-91 | `Home.` followed by text without a second `Home.` goes to the Home arm with that whole text as payload |
| `Actions.HomeArmOf` | src/actions.rs:89-91 | text starting with `Home.` never takes the engine branch, and is decoded by the Home arm on its payload |
| `Actions.EngineErrorArm` | src/actions.rs:73-76 | the `Error(` arm always succeeds, with the stripped message |
| `Actions.DirectionTextPlain` | src/actions.rs:103-108 | a direction's name has no dot and no parenthesis and reads back as that direction |
| `Actions.NavigateTextFamily` | src/actions.rs:89-91 | the printed list navigation is decoded by the Home arm on its own text |
| `Actions.NavigateTextArg` | src/actions.rs:100-102 | the printed list navigation starts with `NavigateList` and its argument is the direction's name |
| `Actions.DecodeEngineToken` | src/actions.rs:66-72 | `Engine.` + Tick, Render, Suspend, Resume, Quit, Refresh or ToggleShowHelp decodes to that variant |
| `Actions.DecodeHomeToken` | src/actions.rs:94-99 | `Home.` + Help, ScheduleIncrement, ScheduleDecrement, ToggleShowHelp, EnterInsert or EnterNormal decodes to that variant |
| `Actions.DecodeUnknownFamily` | src/actions.rs:61-114 | the result is `Unknown Action variant` iff the text starts with neither `Engine.` nor `Home.` |
| `Actions.DecodeEngineUnparenthesised` | src/actions.rs:65-87 | an engine payload that is not a token and has no `(` is `Unknown EngineAction variant` |
| `Actions.DecodeHomeUnknown` | src/actions.rs:89-111 | after `Home.`, the answer is `Unknown HomeAction variant` exactly when the payload is no token and does not start with `NavigateList` |
| `Actions.DecodeEngineError` | src/actions.rs:73-76 | `Engine.Error(...)` always decodes, to the payload stripped of leading `Error(` and trailing `)` |
| `Actions.EngineResizeArm` | src/actions.rs:77-85 | the `Resize(` arm yields the resize of the parsed arguments or their error |
| `Actions.HomeNavigateArm` | src/actions.rs:100-109 | the `NavigateList` arm yields the named direction, the unexpected-direction error or the missing-argument failure |
| `Actions.DecodeEngineResize` | src/actions.rs:77-85 | `Engine.Resize(...)` decodes iff there are exactly two fields each trimming to a `u16`, to those sizes; a bad first field is its parse error; another field count is `Invalid Resize format` |
| `Actions.DecodeHomeNavigateList` | src/actions.rs:100-109 | `Home.NavigateList...` decodes iff the argument is one of the four directions; another argument is `Unexpected list navigation direction`; no parenthesis is the failed index |
| `Actions.DecodeDoubledPrefix` | src/actions.rs:62-63 | `Engine.Engine.x` and `Home.Home.x` are rejected as unknown variants of their family |
| `Actions.DoubledEngine` | src/actions.rs:61-87 | `Engine.Engine.x` leaves an empty payload and is an unknown engine variant |
| `Actions.DoubledHome` | src/actions.rs:89-111 | `Home.Home.x` leaves an empty payload and is an unknown Home variant |
| `Actions.ErrorRoundTrip` | src/actions.rs:73-76 | an error message without `Engine.`, a leading `Error(` or a trailing `)` prints and decodes back to itself |
| `Actions.ResizeRoundTrip` | src/actions.rs:77-85 | every resize prints and decodes back to itself |
| `Actions.NavigateRoundTrip` | src/actions.rs:100-109 | every list navigation prints and decodes back to itself |
| `Actions.DisplayRoundTrip` | src/actions.rs:31-116 | every action with a configuration form (error messages restricted as above) prints and decodes back to itself |
| `Actions.CutPayload` | src/actions.rs:63 | the payload of `Engine.Error(see Engine.log)` stops at the second `Engine.` |
| `Actions.ErrorMessageCutAtPrefix` | src/actions.rs:63-75 | an error message containing `Engine.` does not survive the round trip: `Engine.Error(see Engine.log)` decodes to `Error("see ")` |
| `FlatActions.ParseDirection` | src/action.rs:89-94 | a direction is read iff the text is `Left`, `Right`, `Up` or `Down` |
| `FlatActions.Decode` | src/action.rs:55-99 | a decoded action has a configuration form; apart from the exact tokens it is an `Error`, `Resize` or `NavigateList` whose text starts with that form's opening |
| `FlatActions.NotAToken` | src/action.rs:60-72 | no exact token starts like an argument form, so the token arms never shadow them |
| `FlatActions.DecodeErrorText` | src/action.rs:72-75 | every text starting with `Error(` decodes, to the stripped message |
| `FlatActions.DecodeResize` | src/action.rs:76-85 | `Resize(...)` decodes iff there are exactly two fields each trimming to a `u16`, to those sizes; another field count is `Invalid Resize format` |
| `FlatActions.NavigateArm` | src/action.rs:86-96 | the `NavigateList` arm yields the named direction, the unexpected-direction error or the missing-argument failure |
| `FlatActions.DecodeNavigateList` | src/action.rs:86-96 | `NavigateList...` decodes iff the argument is one of the four directions; no parenthesis is the failed index |
| `FlatActions.DecodeUnknown` | src/action.rs:97 | the result is `Unknown Action variant` iff the text is no token and starts with none of `Error(`, `Resize(`, `NavigateList` |
| `FlatActions.Namespaced` | src/action.rs:16-39 | the namespaced action of a flat one is an engine action exactly for the lifecycle variants |
| `FlatActions.FamilyPrefix` | src/actions.rs:33-36 | the family prefix is `Engine.` or `Home.` |
| `FlatActions.ResizeArm` | src/action.rs:76-85 | the `Resize(` arm yields the resize of the parsed arguments or their error |
| `FlatActions.TokenAgrees` | src/action.rs:60-71 | each flat token, under its family prefix, decodes in the namespaced decoder to the same action |
| `FlatActions.TokenTables` | src/action.rs:60-71 | every flat token is an exact token of its family's namespaced table, for the same variant |
| `FlatActions.EngineDotless` | src/actions.rs:62-63 | a dot-free text after `Engine.` is its whole payload |
| `FlatActions.HomeDotless` | src/actions.rs:90-91 | a dot-free text after `Home.` is its whole payload |
| `FlatActions.ErrorAgrees` | src/action.rs:72-75 | a dot-free `Error(...)` gives the same message under `Engine.` |
| `FlatActions.ResizeAgrees` | src/action.rs:76-85 | a dot-free `Resize(...)` succeeds under `Engine.` iff it does flat, with the same sizes |
| `FlatActions.EngineResizeDotless` | src/actions.rs:77-85 | under `Engine.`, a dot-free `Resize(...)` passes the argument result of its own text through |
| `FlatActions.ResizeOutcomes` | src/action.rs:76-85 | two decoders that pass equal resize arguments through succeed together, with the same size |
| `FlatActions.DirectionAgrees` | src/action.rs:89-94 | both decoders read the same direction names as the same direction |
| `FlatActions.NavigateAgrees` | src/action.rs:86-96 | a dot-free `NavigateList...` succeeds under `Home.` iff it does flat, with the same direction |
| `FlatActions.TokenCase` | src/action.rs:60-71 | the agreement below for an exact token |
| `FlatActions.ErrorCase` | src/action.rs:72-75 | the agreement below for an `Error(` text |
| `FlatActions.ResizeCase` | src/action.rs:76-85 | the agreement below for a `Resize(` text |
| `FlatActions.NavigateCase` | src/action.rs:86-96 | the agreement below for a `NavigateList` text |
| `FlatActions.FlatAgreesWithNamespaced` | src/action.rs:55-99 | every dot-free text the flat decoder accepts decodes, under its family prefix, to the same action in the namespaced decoder |
| `Dispatch.ResolveKey` | src/app.rs:83-98 | no table: nothing; a bound single key: its action, buffer kept; otherwise the key is buffered and the whole buffer's action, if bound, is emitted, without clearing the buffer |
| `Dispatch.PressAll` | src/app.rs:82-98 | definition: the buffer and the sent actions after several key presses, one `ResolveKey` each; see `ChordResolves`, `NoTableNoEffect` |
| `Dispatch.ChordResolves` | src/app.rs:87-97 | a chord whose keys are not bound alone and whose proper prefixes are unbound fills the buffer and emits the chord's action exactly once, at its last key |
| `Dispatch.NoTableNoEffect` | src/app.rs:83 | in a mode without a table, keys change neither the buffer nor the queue |
| `Dispatch.ApplyEngine` | src/app.rs:113-145 | Tick empties the buffer, ChangeMode sets the mode, Quit sets quit, Suspend / Resume set / clear suspend; every other action leaves the loop state alone |
| `Dispatch.ApplyAll` | src/app.rs:113-145 | definition: the engine's reaction to each action of a trace, in order; see `ApplyAllKeys`, `ApplyAllQuit`, `ApplyAllModeKept`, `ApplyAllModeLast`, `ApplyAllSuspendKept`, `ApplyAllSuspendLast`, `ApplyAllCons` |
| `Dispatch.ApplyAllKeys` | src/app.rs:115-117 | after a sequence of actions the buffer is empty iff a Tick was among them, else unchanged |
| `Dispatch.ApplyAllQuit` | src/app.rs:119 | quit is set after a sequence iff it was set before or a Quit was among them |
| `Dispatch.ApplyAllModeKept` | src/app.rs:118 | without a ChangeMode the mode stays |
| `Dispatch.ApplyAllModeLast` | src/app.rs:118 | the mode is that of the last ChangeMode |
| `Dispatch.ApplyAllSuspendKept` | src/app.rs:120-121 | without Suspend or Resume the suspend flag stays |
| `Dispatch.ApplyAllSuspendLast` | src/app.rs:120-121 | the suspend flag is set iff the last of Suspend / Resume was Suspend |
| `Dispatch.Somes` | src/app.rs:147-151 | the answers that were given, no more than the components |
| `Dispatch.FanOut` | src/app.rs:147-151 | every component receives the action in order and is replaced by its next state; at most one answer each |
| `Dispatch.FanOutOutputs` | src/app.rs:147-151 | the queued answers are exactly the components' answers, in component order |
| `Dispatch.FanOutSnoc` | src/app.rs:147-151 | offering to one more component extends the fan-out by that component's reaction |
| `Dispatch.OfferStep` | src/app.rs:147-151 | replacing the next component in place extends the fan-out by one step |
| `Dispatch.Step` | src/app.rs:109-151 | one drained action updates the loop state and is removed from the front; every component becomes its own `update` on that action, in roster order; the answers go to the back |
| `Dispatch.Drain` | src/app.rs:109-152 | definition of the `while let … try_recv()` drain: `Step` until the bus is empty or `fuel` turns are used; see `DrainConserves`, `DrainFifo`, `DrainLoop`, `DrainStops`, `DrainKeepsRoster` |
| `Dispatch.Trace` | src/app.rs:109-152 | definition: the actions the drain took off the bus, in order; see `DrainConserves`, `DrainFifo`, `DrainLoop` |
| `Dispatch.Outputs` | src/app.rs:147-150 | definition: the answers the components sent during the drain, in order; see `DrainConserves` |
| `Dispatch.DrainUnfold` | src/app.rs:109 | a drain with work and fuel is one step followed by the rest |
| `Dispatch.DrainConserves` | src/app.rs:109-151 | processed actions followed by what is left equal the initial queue followed by every answer: nothing lost, nothing invented |
| `Dispatch.FrontSplice` | src/app.rs:109-111 | the front action put back before the rest gives the queue followed by the later sends |
| `Dispatch.DrainStops` | src/app.rs:109 | the drain processes at most `fuel` actions and ends with an empty queue unless it used all of them |
| `Dispatch.DrainKeepsRoster` | src/app.rs:109-151 | no component is added or lost during a drain |
| `Dispatch.DrainLoop` | src/app.rs:113-145 | the loop state after a drain is the engine effects of the processed actions in order |
| `Dispatch.ApplyAllCons` | src/app.rs:113-145 | applying one action and then a sequence is applying the longer sequence |
| `Dispatch.DrainFifo` | src/app.rs:109 | the queued actions are processed first, in queue order (FIFO) |
| `Dispatch.EventAction` | src/app.rs:78-81 | quit, tick, render and resize events have their own action; key and other events do not |
| `Dispatch.EventResolution` | src/app.rs:78-98 | a key event resolves through the keybindings; any other event keeps the buffer and yields its own action |
| `Dispatch.Extend` | src/app.rs:80-106 | a queue extended at the back keeps its front, and the extension follows it |
| `Dispatch.Ingest` | src/app.rs:76-106 | no event: nothing changes; otherwise the old queue is kept, only key events touch loop state, and the appended actions are the event's action or key resolution followed by the components' answers to the event |
| `Dispatch.Settle` | src/app.rs:153-161 | the loop exits iff quit is set and suspend is not; a suspension queues Resume and continues |
| `Dispatch.Round` | src/app.rs:75-162 | definition of one turn of the outer `loop`: ingest the event, drain, then settle, or report `Stalled` when the drain's fuel ran out; see `RoundOutcome`, `ResumeComesFirst` |
| `Dispatch.RunFrom` | src/app.rs:75-162 | definition of the outer `loop` over a finite run of events, stopping at the first exit or stall; see `RunExit` |
| `Dispatch.RoundOutcome` | src/app.rs:75-162 | a round that exits leaves quit set, suspend clear and the queue empty; a suspended round continues with only Resume queued |
| `Dispatch.ResumeComesFirst` | src/app.rs:153-155 | after a suspension, Resume is the first action of the next drain |
| `Dispatch.RunExit` | src/app.rs:75-162 | the loop only exits with quit set and suspend clear |
| `AppLoop.App.constructor` | src/app.rs:35-53 | the app starts in the main menu mode, with neither quit nor suspend set, an empty key buffer and an empty channel |
| `AppLoop.App.Offer` | src/app.rs:102-106 | updating the components in place and sending their answers is the fan-out of the message |
| `AppLoop.App.Queue` | src/app.rs:78-98 | queuing an event's own action or its key's action changes the key buffer and the channel as `EventResolution` says, and leaves the components alone |
| `AppLoop.App.HandleEvent` | src/app.rs:76-106 | the event arm changes the app exactly as `Ingest` says |
| `AppLoop.App.ApplyToLoop` | src/app.rs:113-145 | the engine's reaction changes the loop state exactly as `ApplyEngine` says and nothing else |
| `AppLoop.App.Turn` | src/app.rs:109-151 | one turn of the drain takes the front action and leaves the app in the state `Step` computes |
| `AppLoop.App.DrainBus` | src/app.rs:109-152 | the drain loop ends in the state `Drain` computes and processes exactly `Trace` |
| `AppLoop.App.Settle` | src/app.rs:153-161 | the suspend-or-quit decision changes the app and answers as `Settle` says |
| `AppLoop.App.Run` | src/app.rs:75-162 | the loop over a run of events ends as `RunFrom` says |
| `TabCycle.Prev` | src/components/home.rs:102-103 | moving left from a tab gives the tab whose successor, modulo the tab count, is the start |
| `TabCycle.Next` | src/components/home.rs:104-106 | moving right gives the next tab modulo the tab count |
| `TabCycle.PrevNextInverse` | src/components/home.rs:101-108 | left and right undo each other |
| `HomeModel.ListOpsLen` | src/components/home.rs:26-33 | `LIST_OPS` has four distinct labels, so four tabs |
| `HomeModel.Ticked` | src/components/home.rs:58-62 | the app ticker grows by one, saturating; the key log is emptied; nothing else changes |
| `HomeModel.RenderTicked` | src/components/home.rs:64-67 | the render ticker grows by one, saturating; nothing else changes |
| `HomeModel.Added` | src/components/home.rs:69-71 | the line is appended after the earlier lines, which are unchanged |
| `HomeModel.Incremented` | src/components/home.rs:91-93 | the counter grows by `i` or stops at `usize::MAX`, never shrinking |
| `HomeModel.Decremented` | src/components/home.rs:95-97 | the counter becomes `max(counter - i, 0)` |
| `HomeModel.Navigated` | src/components/home.rs:99-110 | only in Normal mode: Left / Right move round the four tabs modulo four, Up / Down do nothing; the index stays below four |
| `HomeModel.Scheduled` | src/components/home.rs:73-89 | exactly EnterProcessing, the counter change, ExitProcessing are sent, in that order, after what was sent before |
| `HomeModel.Updated` | src/components/home.rs:165-198 | handling an action keeps the tab index below four; Tick and Render are `Ticked` and `RenderTicked`, the schedules are `Scheduled` with a step of one, `Increment(i)`, `Decrement(i)`, `CompleteInput(s)` and `NavigateList(d)` are `Incremented`, `Decremented`, `Added` and `Navigated`, and `Help`, `ToggleShowHelp`, `Update` and every other engine action change nothing |
| `HomeModel.KeyHandled` | src/components/home.rs:142-163 | the key is always logged; there is an answer iff the mode is Insert; outside Insert nothing else changes; in Insert, Esc answers `EnterNormal` and changes nothing else, Enter answers `EnterNormal` and appends `CompleteInput` of the input to the sends when connected, and any other key is given to the editor and answers `Update` |
| `HomeModel.EnterCommitsInput` | src/components/home.rs:148-154 | Enter in Insert mode with a sender, followed by `update` on the answer and on the sent line, returns to Normal with the input as the newest entry |
| `HomeModel.UpdateSetsMode` | src/components/home.rs:178-193 | EnterNormal and ExitProcessing give Normal, EnterInsert Insert, EnterProcessing Processing, and nothing else changes |
| `HomeModel.CompleteInputAppends` | src/components/home.rs:177 | `CompleteInput(s)` appends `s` to the text log |
| `HomeModel.ScheduleSendsBatch` | src/components/home.rs:173-174 | ScheduleIncrement / ScheduleDecrement send exactly the batch with `Increment(1)` / `Decrement(1)` |
| `HomeModel.BatchEffect` | src/components/home.rs:73-89 | the batch, once handled, leaves the screen in Normal mode with the counter moved by one (saturating) and nothing else changed |
| `HomeModel.IncrementThenDecrement` | src/components/home.rs:91-97 | an increment that does not saturate is undone by the same decrement |
| `HomeModel.NavigateLeftRight` | src/components/home.rs:99-110 | in Normal mode Left and Right undo each other |
| `HomeModel.UpdateKeepsKeyLog` | src/components/home.rs:165-198 | only Tick clears the key log, and no action changes the input line |
| `HomeModel.HomeArmKeeps` | src/components/home.rs:171-195 | no Home action changes the key log or the input line |
| `HomeComponent.Home.constructor` | src/components/home.rs:50-52 | a new screen is the default state |
| `HomeComponent.Home.RegisterConfig` | src/components/home.rs:131-135 | the keymap becomes the Home table; only that changes |
| `HomeComponent.Home.RegisterActionHandler` | src/components/home.rs:137-140 | the screen gets a sender; only that changes |
| `HomeComponent.Home.Tick` | src/components/home.rs:58-62 | in-place `tick` follows `Ticked` |
| `HomeComponent.Home.RenderTick` | src/components/home.rs:64-67 | in-place `render_tick` follows `RenderTicked` |
| `HomeComponent.Home.Add` | src/components/home.rs:69-71 | in-place `add` follows `Added` |
| `HomeComponent.Home.ScheduleIncrement` | src/components/home.rs:73-80 | the sends follow `Scheduled` with `Increment(i)` |
| `HomeComponent.Home.ScheduleDecrement` | src/components/home.rs:82-89 | the sends follow `Scheduled` with `Decrement(i)` |
| `HomeComponent.Home.Increment` | src/components/home.rs:91-93 | in-place `increment` follows `Incremented` |
| `HomeComponent.Home.Decrement` | src/components/home.rs:95-97 | in-place `decrement` follows `Decremented` |
| `HomeComponent.Home.NavigateList` | src/components/home.rs:99-110 | in-place `navigate_list` follows `Navigated` and keeps the index below four |
| `HomeComponent.Home.HandleKeyEvents` | src/components/home.rs:142-163 | the new state and the answer are those of `KeyHandled` |
| `HomeComponent.Home.Update` | src/components/home.rs:165-198 | the new state is that of `Updated`, and the answer is always `None` |
| `ModeSwitcherModel.IndexOf` | src/components/mode_switcher.rs:28 | the position of the first `MODES` entry with the mode; every mode has one |
| `ModeSwitcherModel.Initial` | src/components/mode_switcher.rs:27-31 | a new switcher is hidden, on the active mode's entry, with that entry selected |
| `ModeSwitcherModel.Target` | src/components/mode_switcher.rs:34 | no target iff `current_index + offset` leaves `usize`; otherwise the sum clamped onto the two entries |
| `ModeSwitcherModel.SelectMode` | src/components/mode_switcher.rs:33-44 | a negative sum changes nothing and answers nothing; otherwise the index moves to `Target`, which is the sum clamped to the last entry, the list selects it, nothing else changes, and the answer is `ChangeMode` of that entry's mode, even when the clamp kept the index |
| `ModeSwitcherModel.Update` | src/components/mode_switcher.rs:77-92 | the index stays on the list, and the only answer ever given is a `ChangeMode`; `NavigateList(Up)` is `SelectMode` by -1, `NavigateList(Down)` by +1, and `ToggleShowModeSwitcher` flips the visibility and answers nothing |
| `ModeSwitcherModel.UpdateIgnores` | src/components/mode_switcher.rs:78-89 | actions other than navigating up or down and the switcher toggle change nothing and answer nothing |
| `ModeSwitcherModel.ToggleTwice` | src/components/mode_switcher.rs:84-87 | the toggle flips only the visibility, and two toggles restore it |
| `ModeSwitcherModel.UpAtTop` | src/components/mode_switcher.rs:34-39 | Up from the first entry has no target: nothing changes and nothing is answered |
| `ModeSwitcherModel.DownAtBottom` | src/components/mode_switcher.rs:34-43 | Down from the last entry is clamped back onto it and asks for Home again |
| `ModeSwitcherModel.DownThenUp` | src/components/mode_switcher.rs:33-44 | Down then Up from the first entry asks for Home and comes back to the first entry |
| `ModeSwitcherComponent.ModeSwitcher.constructor` | src/components/mode_switcher.rs:27-31 | the search for the active mode finds its entry, and the new switcher is `Initial` |
| `ModeSwitcherComponent.ModeSwitcher.SelectMode` | src/components/mode_switcher.rs:33-44 | in-place `select_mode` follows `SelectMode` |
| `ModeSwitcherComponent.ModeSwitcher.Update` | src/components/mode_switcher.rs:77-92 | in-place `update` follows `Update` |
| `MainMenuModel.ListOpsLen` | src/components/main_menu.rs:18-25 | `LIST_OPS` has four distinct labels, so four tabs |
| `MainMenuModel.Navigated` | src/components/main_menu.rs:44-53 | Left / Right move round the four tabs modulo four in any state, Up / Down do nothing; the index stays below four |
| `MainMenuModel.Updated` | src/components/main_menu.rs:85-93 | only `NavigateList` changes the menu, and the index stays below four |
| `MainMenuModel.LeftSteps` | src/components/main_menu.rs:46-47 | Left from 0 goes to the last tab, from any other tab to the one before |
| `MainMenuModel.RightSteps` | src/components/main_menu.rs:48-50 | Right from the last tab goes to 0, from any other tab to the one after |
| `MainMenuModel.LeftRightRestores` | src/components/main_menu.rs:44-53 | Left and Right undo each other |
| `MainMenuComponent.MainMenu.constructor` | src/components/main_menu.rs:36-38 | a new menu is on the first tab with no sender and no keymap |
| `MainMenuComponent.MainMenu.SetKeymap` | src/components/main_menu.rs:40-42 | the keymap is replaced; only that changes |
| `MainMenuComponent.MainMenu.RegisterActionHandler` | src/components/main_menu.rs:80-83 | the menu gets a sender; only that changes |
| `MainMenuComponent.MainMenu.NavigateList` | src/components/main_menu.rs:44-53 | in-place `navigate_list` follows `Navigated` |
| `MainMenuComponent.MainMenu.Update` | src/components/main_menu.rs:85-93 | the new state is that of `Updated`, and the answer is always `None` |
| `HelpScreenModel.AddMode` | src/components/help_screen.rs:34-38 | the mode is appended iff absent: order kept, the mode present afterwards, no duplicates introduced |
| `HelpScreenModel.AddModeIdempotent` | src/components/help_screen.rs:34-38 | adding the same mode twice is adding it once |
| `HelpScreenModel.ShowAfter` | src/components/help_screen.rs:103-109 | the visibility flips iff the action is the engine's `ToggleShowHelp` |
| `HelpScreenModel.ToggleTwice` | src/components/help_screen.rs:104-106 | two toggles restore the visibility; Home's `ToggleShowHelp` leaves it alone |
| `HelpScreenModel.Descriptions` | src/components/help_screen.rs:66-68 | one description per key of the chord |
| `HelpScreenModel.KeyCellJoins` | src/components/help_screen.rs:66-74 | the key cell is the key descriptions joined with `", "`, with no leading separator |
| `HelpScreenModel.KeyCell` | src/components/help_screen.rs:66-74 | definition of the key cell: each key's description, all but the first prefixed by `", "`, concatenated; see `KeyCellJoins` |
| `HelpScreenModel.SeparatedEach` | src/components/help_screen.rs:72 | one separated piece per description |
| `HelpScreenModel.ConcatCons` | src/components/help_screen.rs:74 | collecting a first piece and the rest is the first piece before the rest collected |
| `HelpScreenModel.SeparatedJoin` | src/components/help_screen.rs:70-74 | a first piece followed by `", "`-prefixed pieces is the join of them all |
| `HelpScreenModel.BindingRows` | src/components/help_screen.rs:62-78 | one binding row per chord of the table, in iteration order, holding the chord's key cell and the bound action's text |
| `HelpScreenModel.ModeRows` | src/components/help_screen.rs:56-80 | a watched mode's block is a blank row, the header with the mode's `{:?}` name, then `BindingRows` of the table in iteration order |
| `HelpScreenModel.DistinctCount` | src/components/help_screen.rs:62-63 | a duplicate-free listing has as many distinct elements as entries |
| `HelpScreenModel.EnumerationLength` | src/components/help_screen.rs:62-63 | iterating a table visits as many chords as it has bindings |
| `HelpScreenModel.HelpRowsCount` | src/components/help_screen.rs:52-82 | the table has, per watched mode, one blank row, one header and one row per binding |
| `HelpScreenModel.HelpRows` | src/components/help_screen.rs:52-82 | definition of the `flat_map` over the watched modes; see `HelpRowsCount`, `HeadersAreWatched`, `HelpRowsAppend`, `AddModeRows` |
| `HelpScreenModel.HeadersConcat` | src/components/help_screen.rs:56-81 | the headers of concatenated rows are concatenated |
| `HelpScreenModel.NoBindingHeaders` | src/components/help_screen.rs:62-78 | binding rows contain no header |
| `HelpScreenModel.HeadersAreWatched` | src/components/help_screen.rs:52-82 | the header rows name the watched modes, once each, in watched order |
| `HelpScreenModel.DrawableParts` | src/components/help_screen.rs:55 | every part of a list whose modes all have tables is such a list |
| `HelpScreenModel.HelpRowsAppend` | src/components/help_screen.rs:52-82 | the rows of two lists of modes are the rows of the first followed by those of the second |
| `HelpScreenModel.AddModeRows` | src/components/help_screen.rs:34-38 | watching a new mode adds exactly its block of rows at the bottom; a known mode adds nothing |
| `HelpScreenComponent.HelpScreen.constructor` | src/components/help_screen.rs:30-32 | a new overlay is hidden and watches exactly the given modes |
| `HelpScreenComponent.HelpScreen.RegisterConfig` | src/components/help_screen.rs:97-101 | the configuration's tables replace the old ones; only that changes |
| `HelpScreenComponent.HelpScreen.AddMode` | src/components/help_screen.rs:34-38 | in-place `add_mode` follows `AddMode` |
| `HelpScreenComponent.HelpScreen.Update` | src/components/help_screen.rs:103-109 | the visibility follows `ShowAfter`, nothing else changes, and the answer is always `None` |
| `HelpScreenComponent.HelpScreen.Rows` | src/components/help_screen.rs:52-82 | the rows drawn from the current configuration number `RowCount`: two per watched mode plus one per binding |

## Left out

- Terminal I/O is not modelled: entering, leaving, suspending and resizing the terminal, drawing, and `tui.next()`. Events arrive as a list, with `None` for a poll that yields nothing.
- The `Error` actions queued when a component fails to draw are left out, because drawing is not modelled.
- The order in which separate tokio tasks interleave their sends is not modelled. This covers the task spawned by `schedule_*`: its sends are in-order appends to Home's `sent`, and they are not merged into the app's channel.
- The `?` error propagation out of `run`, a component's failing `update` or `handle_events`, and a send on a closed channel are left out. Every call is taken to succeed.
- `tick_rate` and `frame_rate` (floating point), `FpsCounter`, logging and tracing are not modelled.
- `Config::new` (which reads files) and the config module are not part of this model. The keybinding tables are a parameter, and a help overlay's default configuration has no tables.
- `key_event_to_string` and the `tui_input` editor are not part of this model. They are the parameters `describe` and `edit`. Their behaviour is unconstrained.
- `EngineAction` and `HomeAction` implement no `Display` (src/actions/engine_actions.rs, src/actions/home_action.rs). The inner text that `Display for Action` writes is modelled as the configuration's text form (`Actions.EngineText`, `Actions.HomeText`).
- The Serde `Deserializer` plumbing is left out. The decoders are modelled as `visit_str`, from text to a result.
- `App` is generic over its components. The concrete roster of `App::new` is not built, because it mixes the flat and the namespaced action types.
- `AppLoop.App.DrainBus`: the drain stops after `fuel` actions. The unbounded `while let` loop does not terminate on every cascade, so the model reports `Stalled` rather than diverging.
- The `draw`/`draw_menu` layouts, styles and widgets of every component are not modelled, and neither is `src/components/list_todos.rs` (widget construction that depends on Unicode display width). Only the help table's rows are modelled.
- `HomeModel.Navigated`, `MainMenuModel.Navigated`: both take the tab index below four as a precondition. The index starts at 0 and every operation keeps it there, so the `usize` overflow of `+ 1` cannot occur.
- `HomeModel.Scheduled`: requires a registered sender. The source unwraps `action_tx` and panics without one.
- `HomeComponent.Home.RegisterConfig`: requires a Home table in the configuration. The source unwraps the lookup and panics without one.
- Home's direct sends are collected in its `sent` log and never reach the app's bus. This covers the `CompleteInput` sent on Enter as well as the `schedule_*` batches. `App::new` does not put Home in its roster, and the model's `App` has no path from a component's own sender to the bus.
- `HelpScreenModel.HelpRows`: requires a table for every watched mode. The source unwraps the lookup and panics without one.
- `MainMenu::register_config_handler` is not modelled. It stores a namespaced table into a flat keymap. `SetKeymap` models storing a keymap.
- `HelpScreen`'s `TableState` and `ModeSwitcher`'s list widget are not modelled beyond the selected index.
