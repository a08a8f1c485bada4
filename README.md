# Download-manager terminal interface: state machine

This project models the interactive core of a terminal front end for a download
manager. It keeps a list of queued links, a main screen and an add-link dialog,
a Normal/Editing input mode and a text buffer for the dialog. Keyboard events
drive it: in Normal mode `a` opens the dialog and `q` quits. In Editing mode
key presses type into the buffer, Backspace deletes, Enter queues the buffer as
a link and Esc cancels.

- `application.dfy` (module `Application`) models `src/app.rs`.
  - `Link`, `CurrentScreen`, `InputMode` and `DownloadStatus` are datatypes.
  - `App` is a class whose methods change its fields in place, as the Rust `&mut self` methods do.
  - `AppView` is the same record as a value. Its member functions (`EnterChar`, `Paste`, `DeleteChar`, `AddToDownloadList`, `Reset`) are the specifications the `App` methods are proved against (`View() == old(View()).EnterChar(c)` and so on).
  - Lemmas state what each operation promises.
- `controller.dfy` (module `Controller`) models `run_app` in `src/main.rs`.
  - `Step` is one loop iteration: a pure function from a state and an event to either a new state or `Quit`.
  - `Run` runs the loop over a finite sequence of events.
  - `HandleEvent` and `RunApp` are the imperative loop body and loop on an `App` object, proved equal to `Step` and `Run`.
  - `StartApp` hands a fresh `App` to the loop, as `main` does.

The central invariant is `AppView.Invariant()`: the dialog is shown exactly
when the mode is Editing, and in Normal mode the buffer is empty. Every step
keeps it, so every state reachable from start-up satisfies it. Links only grow:
the final links are the old links followed by one in-progress link per
Editing-mode Enter press, holding the buffer as it was at that moment.

Reopening the dialog after a cancel never shows the old text again. `reset`
clears the buffer on every way out of Editing mode, so the dialog always opens
empty (`Controller.DialogOpensEmpty`, `Controller.ScenarioCancel`).

`Event::Paste` events are not key events, so `run_app` ignores them. `App::paste` is never called from the loop.
It is modelled and proved on its own.

Normal mode reacts to every key event kind, releases included. Editing mode
reacts only to presses (`Controller.NormalIgnoresKind`, `Controller.EditingIgnoresNonPress`).
The model keeps this asymmetry as written.

## Model

| member | source | states |
|---|---|---|
| Application.NewLink | src/app.rs:26-31 | a new link holds the given URL verbatim and has status InProgress |
| Application.ToRowNumbering | src/app.rs:33-36 | the row for index i is labelled i + 1 and shows the link's URL; labels start at 1, follow insertion order and are distinct |
| Application.App.constructor | src/app.rs:49-57 | a new App has no links, the Main screen, Normal mode, an empty buffer and character index 0 |
| Application.InitialViewSatisfiesInvariant | src/app.rs:49-57 | the start-up state has no links and an empty buffer, and it satisfies the screen/mode and empty-in-Normal invariant |
| Application.App.Paste | src/app.rs:59-61 | the buffer becomes the old buffer followed by the pasted string; no other field changes |
| Application.PasteAppends | src/app.rs:59-61 | pasting appends the whole string to the buffer and leaves every other field as it was |
| Application.App.EnterChar | src/app.rs:62-64 | the buffer becomes the old buffer followed by the character; no other field changes |
| Application.EnterCharAppends | src/app.rs:62-64 | typing a character grows the buffer by exactly that character and leaves every other field as it was |
| Application.ApplyEditsConcatenates | src/app.rs:59-64 | any sequence of enter_char/paste calls leaves the buffer equal to the old buffer followed by all pieces in order, and changes nothing else |
| Application.App.DeleteChar | src/app.rs:66-68 | a non-empty buffer loses exactly its last character; an empty buffer stays empty; no other field changes |
| Application.DeleteCharRemovesLast | src/app.rs:66-68 | on an empty buffer delete is a no-op on the whole state; otherwise the new buffer followed by the removed last character is the old buffer |
| Application.EnterCharThenDeleteChar | src/app.rs:62-68 | typing a character and then deleting gives back exactly the state before typing |
| Application.App.AddToDownloadList | src/app.rs:70-73 | the links gain exactly one link built from the old buffer; then the buffer is empty, the screen Main and the mode Normal |
| Application.AddToDownloadListAppendsOne | src/app.rs:70-73 | submitting appends one InProgress link whose URL is the old buffer, even an empty one; old links stay a prefix; buffer cleared, Main, Normal, character index unchanged |
| Application.App.Reset | src/app.rs:75-79 | the buffer is cleared, the screen is Main and the mode Normal; links and character index are unchanged |
| Application.ResetReturnsToMain | src/app.rs:75-79 | after reset the buffer is empty, screen Main, mode Normal, links and character index untouched, and the invariant holds |
| Controller.Step | src/main.rs:52-80 | an iteration quits exactly on a 'q' key in Normal mode; links grow by exactly one link of the buffer on an Editing-mode Enter press and otherwise stay the same; the screen/mode coupling and the empty-in-Normal invariant are kept |
| Controller.NonKeyEventIgnored | src/main.rs:52 | a non-key event leaves the state unchanged in either mode |
| Controller.NormalAOpensDialog | src/main.rs:55-58 | in Normal mode 'a' switches to Editing and AddDialog, with buffer and links unchanged |
| Controller.NormalQQuits | src/main.rs:59-61 | in Normal mode 'q' of any event kind ends the loop |
| Controller.NormalOtherKeyIgnored | src/main.rs:62 | in Normal mode every key code other than 'a' and 'q' leaves the state unchanged |
| Controller.NormalIgnoresKind | src/main.rs:53-63 | in Normal mode the outcome does not depend on the event kind |
| Controller.EditingIgnoresNonPress | src/main.rs:64-79 | in Editing mode a repeat or release event leaves the state unchanged |
| Controller.EditingPressDispatch | src/main.rs:64-78 | in Editing mode a press of Enter submits, Char(c) types c (also 'q' and 'a', without quitting), Backspace deletes, Esc resets without touching links, and any other key does nothing |
| Controller.DialogOpensEmpty | src/main.rs:55-58 | in a state satisfying the invariant, opening the dialog gives an empty buffer |
| Controller.Run | src/main.rs:49-84 | the loop reads at most all events, all of them unless it quits, and when it quits the last event read was a 'q' in Normal mode; the old links remain a prefix and the character index is unchanged |
| Controller.RunPreservesInvariant | src/main.rs:50-82 | running any events from a state with the invariant ends in a state with the invariant |
| Controller.ReachableStatesKeepInvariant | src/main.rs:49-82 | every state reachable from start-up couples screen and mode and has an empty buffer in Normal mode |
| Controller.RunAppendsSubmissions | src/main.rs:64-67 | the final links are the old links followed by one InProgress link per submitted buffer, in submission order, so the count grows by exactly one per submission |
| Controller.QuitIgnoresLaterEvents | src/main.rs:59-61 | once the loop has quit, appending more events changes neither the result nor the number of events read |
| Controller.RunConcatenates | src/main.rs:50-82 | if the first batch does not quit, running two batches together equals running the second from where the first ended |
| Controller.TypingAppends | src/main.rs:68-70 | in Editing mode, typing a string key by key appends it to the buffer and reads every key without quitting |
| Controller.ScenarioAddLink | src/main.rs:53-78 | from start-up, 'a', a typed URL and Enter leave exactly one InProgress link with that URL, Main/Normal and an empty buffer |
| Controller.ScenarioCancel | src/main.rs:74-76 | from start-up, 'a', any typed text and Esc give back exactly the start-up state |
| Controller.ScenarioQuit | src/main.rs:54-61 | Enter on the main screen adds no link, and 'q' then ends the loop before the following 'a' is read |
| Controller.HandleEvent | src/main.rs:52-80 | the in-place loop body changes the App exactly as Step says and reports quit exactly when Step quits |
| Controller.RunApp | src/main.rs:49-84 | the in-place loop returns on the first quit key and leaves the App in the state Run computes; it keeps the invariant |
| Controller.StartApp | src/main.rs:31-32 | a fresh App run over any events ends as Run from the start-up state says, in a state satisfying the invariant |

## Left out

- `src/ui.rs`: layout, widgets and styling for a foreign rendering library. It holds no state.
- `main`'s terminal setup and teardown (raw mode, alternate screen, mouse capture, cursor) and the printing of errors: terminal I/O.
- `terminal.draw` and `event::read`: the redraw before each read is not modelled. Events come from a finite sequence instead of a blocking read. The I/O error paths (`?`) are not modelled either.
- Controller.Run: no quit key means all given events are read and the loop ends. The real loop would block waiting for the next event.
- Key event modifiers and state, and the payloads of mouse, media and modifier key events: the loop never reads them.
- Application.ToRowNumbering: keeps only the label's number (`index + 1`), not the text `"N - "` or the green bold styling. The `usize` overflow of `index + 1` is not modelled, since it needs more links than memory can hold.
- `character_index` is kept as an unchanging field; it is set at start-up and never read or written.
- `DownloadStatus::Done` is declared but never produced, so no transition to it is modelled.
