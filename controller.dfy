/**
 The event loop: each iteration redraws, reads one terminal event and, on the
 current input mode, the key code and the key event kind, either changes the
 application state or quits. Redrawing and reading are not modelled; the
 events arrive as a finite sequence.
 */
module Controller {
  import opened Application

  /** Key codes as the terminal backend reports them; payloads the loop never reads are dropped. */
  datatype KeyCode =
    | Backspace | Enter | Left | Right | Up | Down | Home | End | PageUp | PageDown
    | Tab | BackTab | Delete | Insert | F(n: nat) | Char(c: char) | Null | Esc
    | CapsLock | ScrollLock | NumLock | PrintScreen | Pause | Menu | KeypadBegin
    | Media | Modifier

  datatype KeyEventKind = Press | Repeat | Release

  /** The loop reads only the code and the kind of a key event. */
  datatype KeyEvent = KeyEvent(code: KeyCode, kind: KeyEventKind)

  datatype Event =
    | FocusGained
    | FocusLost
    | Key(key: KeyEvent)
    | Mouse
    | Paste(text: string)
    | Resize(columns: nat, rows: nat)

  /** What one iteration does: carry on from a new state, or return from the loop. */
  datatype Outcome = Continue(next: AppView) | Quit

  /** The only event that queues a link: Enter pressed while editing. */
  predicate IsSubmit(v: AppView, e: Event)
  {
    v.mode == Editing && e == Key(KeyEvent(Enter, Press))
  }

  predicate IsQuit(v: AppView, e: Event)
  {
    v.mode == Normal && e.Key? && e.key.code == Char('q')
  }

  /** One iteration of the loop, after the redraw. */
  function Step(v: AppView, e: Event): (r: Outcome)
    ensures r.Quit? <==> IsQuit(v, e)
    ensures r.Continue? ==>
      r.next.links == v.links + (if IsSubmit(v, e) then [NewLink(v.input)] else [])
    ensures r.Continue? ==> r.next.characterIndex == v.characterIndex
    ensures r.Continue? && v.Coupled() ==> r.next.Coupled()
    ensures r.Continue? && v.Invariant() ==> r.next.Invariant()
  {
    match e
    case Key(key) =>
      (match v.mode
       case Normal =>
         if key.code == Char('a') then Continue(v.(mode := Editing, screen := AddDialog))
         else if key.code == Char('q') then Quit
         else Continue(v)
       case Editing =>
         if key.kind != Press then Continue(v)
         else
           match key.code
           case Enter => Continue(v.AddToDownloadList())
           case Char(c) => Continue(v.EnterChar(c))
           case Backspace => Continue(v.DeleteChar())
           case Esc => Continue(v.Reset())
           case _ => Continue(v))
    case _ => Continue(v)
  }

  /** The loop stopped because of a quit key, and how many events it read. */
  datatype RunResult = RunResult(final: AppView, quit: bool, consumed: nat)

  /** The result of running the rest of the events after `n` were already read. */
  function After(n: nat, r: RunResult): RunResult
  {
    r.(consumed := r.consumed + n)
  }

  /**
   Runs the loop over the events until a quit key; with no quit key, all are
   read and the loop would go on waiting for more.
   */
  function Run(v: AppView, events: seq<Event>): (r: RunResult)
    ensures r.consumed <= |events|
    ensures !r.quit ==> r.consumed == |events|
    ensures r.quit ==> 1 <= r.consumed && IsQuit(r.final, events[r.consumed - 1])
    ensures v.links <= r.final.links
    ensures r.final.characterIndex == v.characterIndex
    decreases |events|
  {
    if events == [] then RunResult(v, false, 0)
    else
      match Step(v, events[0])
      case Quit => RunResult(v, true, 1)
      case Continue(next) => After(1, Run(next, events[1..]))
  }

  /** The buffers the loop submits as links, in order. */
  function Submissions(v: AppView, events: seq<Event>): seq<string>
    decreases |events|
  {
    if events == [] then []
    else
      match Step(v, events[0])
      case Quit => []
      case Continue(next) =>
        (if IsSubmit(v, events[0]) then [v.input] else []) + Submissions(next, events[1..])
  }

  function LinksFor(urls: seq<string>): (ls: seq<Link>)
    ensures |ls| == |urls|
    ensures forall i :: 0 <= i < |urls| ==> ls[i] == Link(urls[i], InProgress)
  {
    seq(|urls|, i requires 0 <= i < |urls| => NewLink(urls[i]))
  }

  /** Non-key events never change anything, in either mode. */
  lemma NonKeyEventIgnored(v: AppView, e: Event)
    requires !e.Key?
    ensures Step(v, e) == Continue(v)
  {
  }

  /** In Normal mode 'a' opens the dialog and touches neither buffer nor links. */
  lemma NormalAOpensDialog(v: AppView, kind: KeyEventKind)
    requires v.mode == Normal
    ensures Step(v, Key(KeyEvent(Char('a'), kind))) ==
      Continue(v.(mode := Editing, screen := AddDialog))
  {
  }

  /** In Normal mode 'q' ends the loop, whatever the event kind. */
  lemma NormalQQuits(v: AppView, kind: KeyEventKind)
    requires v.mode == Normal
    ensures Step(v, Key(KeyEvent(Char('q'), kind))) == Quit
  {
  }

  /** In Normal mode every other key, Enter, Esc and Backspace included, is ignored. */
  lemma NormalOtherKeyIgnored(v: AppView, key: KeyEvent)
    requires v.mode == Normal
    requires key.code != Char('a') && key.code != Char('q')
    ensures Step(v, Key(key)) == Continue(v)
  {
  }

  /** Normal mode does not look at the event kind: a release acts like a press. */
  lemma NormalIgnoresKind(v: AppView, code: KeyCode, k1: KeyEventKind, k2: KeyEventKind)
    requires v.mode == Normal
    ensures Step(v, Key(KeyEvent(code, k1))) == Step(v, Key(KeyEvent(code, k2)))
  {
  }

  /** In Editing mode only presses act; repeats and releases change nothing. */
  lemma EditingIgnoresNonPress(v: AppView, key: KeyEvent)
    requires v.mode == Editing && key.kind != Press
    ensures Step(v, Key(key)) == Continue(v)
  {
  }

  /** What a key press does in Editing mode. Typed 'q' and 'a' are text, not commands. */
  lemma EditingPressDispatch(v: AppView, code: KeyCode)
    requires v.mode == Editing
    ensures code == Enter ==> Step(v, Key(KeyEvent(code, Press))) == Continue(v.AddToDownloadList())
    ensures code.Char? ==> Step(v, Key(KeyEvent(code, Press))) == Continue(v.EnterChar(code.c))
    ensures code == Backspace ==> Step(v, Key(KeyEvent(code, Press))) == Continue(v.DeleteChar())
    ensures code == Esc ==> Step(v, Key(KeyEvent(code, Press))) == Continue(v.Reset())
    ensures code == Esc ==> Step(v, Key(KeyEvent(code, Press))).next.links == v.links
    ensures !(code.Enter? || code.Char? || code.Backspace? || code.Esc?) ==>
      Step(v, Key(KeyEvent(code, Press))) == Continue(v)
  {
  }

  /**
   Reset is the only way back to Normal mode and it clears the buffer, so the
   dialog always opens on an empty buffer in a reachable state.
   */
  lemma DialogOpensEmpty(v: AppView, kind: KeyEventKind)
    requires v.Invariant() && v.mode == Normal
    ensures Step(v, Key(KeyEvent(Char('a'), kind))).next.input == []
  {
  }

  /** Every state the loop passes through keeps the invariant. */
  lemma {:induction false} RunPreservesInvariant(v: AppView, events: seq<Event>)
    requires v.Invariant()
    ensures Run(v, events).final.Invariant()
    decreases |events|
  {
    if events != [] {
      match Step(v, events[0])
      case Quit =>
      case Continue(next) => RunPreservesInvariant(next, events[1..]);
    }
  }

  /** From the start-up state, every reachable state keeps the invariant. */
  lemma ReachableStatesKeepInvariant(events: seq<Event>)
    ensures Run(InitialView(), events).final.Invariant()
    ensures Run(InitialView(), events).final.mode == Normal ==> Run(InitialView(), events).final.input == []
  {
    RunPreservesInvariant(InitialView(), events);
  }

  /**
   The links at the end are the old links followed by one in-progress link per
   submitted buffer, in submission order.
   */
  lemma {:induction false} RunAppendsSubmissions(v: AppView, events: seq<Event>)
    ensures Run(v, events).final.links == v.links + LinksFor(Submissions(v, events))
    ensures |Run(v, events).final.links| == |v.links| + |Submissions(v, events)|
    decreases |events|
  {
    if events != [] {
      match Step(v, events[0])
      case Quit =>
        assert v.links + LinksFor([]) == v.links;
      case Continue(next) =>
        RunAppendsSubmissions(next, events[1..]);
        var mine := if IsSubmit(v, events[0]) then [v.input] else [];
        var rest := Submissions(next, events[1..]);
        assert Submissions(v, events) == mine + rest;
        assert LinksFor(mine + rest) == LinksFor(mine) + LinksFor(rest);
        assert next.links == v.links + LinksFor(mine);
    }
  }

  /** Once the loop has quit, later events are never read. */
  lemma {:induction false} QuitIgnoresLaterEvents(v: AppView, events: seq<Event>, later: seq<Event>)
    requires Run(v, events).quit
    ensures Run(v, events + later) == Run(v, events)
    decreases |events|
  {
    assert (events + later)[0] == events[0];
    match Step(v, events[0])
    case Quit =>
    case Continue(next) =>
      assert (events + later)[1..] == events[1..] + later;
      QuitIgnoresLaterEvents(next, events[1..], later);
  }

  /** Running two batches of events one after the other is running them together. */
  lemma {:induction false} RunConcatenates(v: AppView, first: seq<Event>, second: seq<Event>)
    requires !Run(v, first).quit
    ensures Run(v, first + second) == After(|first|, Run(Run(v, first).final, second))
    decreases |first|
  {
    if first == [] {
      assert first + second == second;
    } else {
      assert (first + second)[0] == first[0];
      match Step(v, first[0])
      case Quit =>
      case Continue(next) =>
        assert (first + second)[1..] == first[1..] + second;
        RunConcatenates(next, first[1..], second);
    }
  }

  function KeyPress(code: KeyCode): Event
  {
    Key(KeyEvent(code, Press))
  }

  /** One key press per character of `s`. */
  function TypeKeys(s: string): (es: seq<Event>)
    ensures |es| == |s|
    ensures forall i :: 0 <= i < |s| ==> es[i] == KeyPress(Char(s[i]))
  {
    seq(|s|, i requires 0 <= i < |s| => KeyPress(Char(s[i])))
  }

  /** In the dialog, typing a string appends it to the buffer, one character per key. */
  lemma {:induction false} TypingAppends(v: AppView, s: string)
    requires v.mode == Editing
    ensures Run(v, TypeKeys(s)) == RunResult(v.(input := v.input + s), false, |s|)
    decreases |s|
  {
    if s == [] {
      assert v.input + s == v.input;
    } else {
      var w := v.EnterChar(s[0]);
      assert Step(v, TypeKeys(s)[0]) == Continue(w);
      assert TypeKeys(s)[1..] == TypeKeys(s[1..]);
      TypingAppends(w, s[1..]);
      assert w.input + s[1..] == v.input + s;
    }
  }

  /**
   Start, 'a', type a URL, Enter: exactly one link holding that URL, back on the
   main screen with an empty buffer (for instance the URL "http").
   */
  lemma ScenarioAddLink(url: string)
    ensures Run(InitialView(), [KeyPress(Char('a'))] + TypeKeys(url) + [KeyPress(Enter)]) ==
      RunResult(InitialView().(links := [Link(url, InProgress)]), false, |url| + 2)
  {
    var editing := InitialView().(mode := Editing, screen := AddDialog);
    var typed := editing.(input := url);
    assert Run(InitialView(), [KeyPress(Char('a'))]) == RunResult(editing, false, 1);
    TypingAppends(editing, url);
    assert editing.input + url == url;
    RunConcatenates(InitialView(), [KeyPress(Char('a'))], TypeKeys(url));
    RunConcatenates(InitialView(), [KeyPress(Char('a'))] + TypeKeys(url), [KeyPress(Enter)]);
    assert Run(typed, [KeyPress(Enter)]) ==
      RunResult(InitialView().(links := [Link(url, InProgress)]), false, 1);
  }

  /**
   Start, 'a', type any text, Esc: back on the main screen with an empty buffer
   and no link, exactly the start-up state.
   */
  lemma ScenarioCancel(text: string)
    ensures Run(InitialView(), [KeyPress(Char('a'))] + TypeKeys(text) + [KeyPress(Esc)]) ==
      RunResult(InitialView(), false, |text| + 2)
  {
    var editing := InitialView().(mode := Editing, screen := AddDialog);
    assert Run(InitialView(), [KeyPress(Char('a'))]) == RunResult(editing, false, 1);
    TypingAppends(editing, text);
    assert editing.input + text == text;
    RunConcatenates(InitialView(), [KeyPress(Char('a'))], TypeKeys(text));
    RunConcatenates(InitialView(), [KeyPress(Char('a'))] + TypeKeys(text), [KeyPress(Esc)]);
    assert Run(editing.(input := text), [KeyPress(Esc)]) == RunResult(InitialView(), false, 1);
  }

  /** Enter on the main screen adds nothing; 'q' then stops the loop before 'a'. */
  lemma ScenarioQuit()
    ensures Run(InitialView(), [KeyPress(Enter), KeyPress(Char('q')), KeyPress(Char('a'))]) ==
      RunResult(InitialView(), true, 2)
  {
  }

  /** One iteration of the loop on the mutable record; returns true to leave the loop. */
  method HandleEvent(app: App, e: Event) returns (quit: bool)
    modifies app
    ensures quit == Step(old(app.View()), e).Quit?
    ensures quit ==> app.View() == old(app.View())
    ensures !quit ==> app.View() == Step(old(app.View()), e).next
  {
    quit := false;
    if e.Key? {
      var key := e.key;
      match app.inputMode
      case Normal =>
        if key.code == Char('a') {
          app.inputMode := Editing;
          app.currentScreen := AddDialog;
        } else if key.code == Char('q') {
          quit := true;
        }
      case Editing =>
        if key.kind == Press {
          match key.code
          case Enter => app.AddToDownloadList();
          case Char(c) => app.EnterChar(c);
          case Backspace => app.DeleteChar();
          case Esc => app.Reset();
          case _ =>
        }
    }
  }

  /**
   The loop over a finite event sequence. It returns as soon as a quit key is
   handled; otherwise it reads every event.
   */
  method RunApp(app: App, events: seq<Event>) returns (quit: bool, consumed: nat)
    modifies app
    ensures quit == Run(old(app.View()), events).quit
    ensures consumed == Run(old(app.View()), events).consumed
    ensures app.View() == Run(old(app.View()), events).final
    ensures old(app.View()).Invariant() ==> app.View().Invariant()
  {
    ghost var start := app.View();
    consumed := 0;
    while consumed < |events|
      invariant consumed <= |events|
      invariant start == old(app.View())
      invariant Run(start, events) == After(consumed, Run(app.View(), events[consumed..]))
    {
      ghost var before := app.View();
      var e := events[consumed];
      assert events[consumed..][0] == e;
      assert events[consumed..][1..] == events[consumed + 1..];
      quit := HandleEvent(app, e);
      consumed := consumed + 1;
      if quit {
        assert Run(before, events[consumed - 1..]) == RunResult(app.View(), true, 1);
        if start.Invariant() { RunPreservesInvariant(start, events); }
        return;
      }
    }
    quit := false;
    if start.Invariant() { RunPreservesInvariant(start, events); }
  }

  /**
   Start-up as the program does it: a fresh record handed to the loop. Every
   state it ends in keeps the invariant, so in Normal mode the buffer is empty.
   */
  method StartApp(events: seq<Event>) returns (quit: bool, consumed: nat, finalView: AppView)
    ensures quit == Run(InitialView(), events).quit
    ensures consumed == Run(InitialView(), events).consumed
    ensures finalView == Run(InitialView(), events).final
    ensures finalView.Invariant()
  {
    var app := new App();
    quit, consumed := RunApp(app, events);
    finalView := app.View();
    ReachableStatesKeepInvariant(events);
  }
}
