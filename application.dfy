/**
 The application state of the download-manager terminal interface: the queued
 links, which screen is shown, whether keys are commands or text, and the text
 buffer of the add-link dialog.

 `App` is the mutable record the event loop owns; `AppView` is the same record
 as a value, and its member functions say what each `App` method does to it.
 */
module Application {

  /** Which modal view is visible. */
  datatype CurrentScreen = Main | AddDialog

  /** Whether keys are read as commands (`Normal`) or as text (`Editing`). */
  datatype InputMode = Normal | Editing

  /** `Done` is declared but nothing ever produces it. */
  datatype DownloadStatus = InProgress | Done

  /** One queued download: the URL exactly as typed, never validated. */
  datatype Link = Link(url: string, status: DownloadStatus)

  /** Link::new: a fresh link always starts out in progress. */
  function NewLink(url: string): (l: Link)
    ensures l.url == url && l.status == InProgress
  {
    Link(url, InProgress)
  }

  /**
   The numeric part of a table row: the row label is the ordinal
   `index + 1`, next to the URL. Styling is not modelled.
   */
  datatype Row = Row(ordinal: nat, url: string)

  function ToRow(link: Link, index: nat): Row
  {
    Row(index + 1, link.url)
  }

  /** Row labels are 1-based, follow insertion order and never repeat. */
  lemma ToRowNumbering(a: Link, i: nat, b: Link, j: nat)
    ensures ToRow(a, i).ordinal >= 1 && ToRow(a, i).url == a.url
    ensures ToRow(a, i).ordinal == i + 1
    ensures i < j <==> ToRow(a, i).ordinal < ToRow(b, j).ordinal
    ensures i == j <==> ToRow(a, i).ordinal == ToRow(b, j).ordinal
  {
  }

  /** The whole `App` record as a value. */
  datatype AppView = AppView(
    links: seq<Link>,
    screen: CurrentScreen,
    mode: InputMode,
    input: string,
    characterIndex: nat)
  {
    /** The dialog is shown exactly when keys are read as text. */
    predicate Coupled()
    {
      (screen == AddDialog) <==> (mode == Editing)
    }

    /**
     What holds in every state the event loop can reach from `InitialView()`:
     the screen and mode agree, and in Normal mode the buffer is empty.
     */
    predicate Invariant()
    {
      Coupled() && (mode == Normal ==> input == [])
    }

    function Paste(s: string): AppView
    {
      this.(input := input + s)
    }

    function EnterChar(c: char): AppView
    {
      this.(input := input + [c])
    }

    /** Drops the last character; an empty buffer stays empty. */
    function DeleteChar(): AppView
    {
      if input == [] then this else this.(input := input[..|input| - 1])
    }

    function Reset(): AppView
    {
      this.(input := [], screen := Main, mode := Normal)
    }

    /** Queues the buffer verbatim, even when it is empty, then resets. */
    function AddToDownloadList(): AppView
    {
      this.(links := links + [NewLink(input)]).Reset()
    }
  }

  function InitialView(): AppView
  {
    AppView([], Main, Normal, [], 0)
  }

  lemma InitialViewSatisfiesInvariant()
    ensures InitialView().Invariant()
    ensures InitialView().links == [] && InitialView().input == []
  {
  }

  lemma PasteAppends(v: AppView, s: string)
    ensures v.Paste(s).input == v.input + s
    ensures v.Paste(s).(input := v.input) == v
  {
  }

  lemma EnterCharAppends(v: AppView, c: char)
    ensures v.EnterChar(c).input == v.input + [c]
    ensures |v.EnterChar(c).input| == |v.input| + 1
    ensures v.EnterChar(c).(input := v.input) == v
  {
  }

  /** Backspace removes exactly the last character, and nothing on an empty buffer. */
  lemma DeleteCharRemovesLast(v: AppView)
    ensures v.input == [] ==> v.DeleteChar() == v
    ensures v.input != [] ==>
      v.DeleteChar().input + [v.input[|v.input| - 1]] == v.input
    ensures v.DeleteChar().(input := v.input) == v
  {
  }

  /** Typing a character and deleting it gives back the state typed into. */
  lemma EnterCharThenDeleteChar(v: AppView, c: char)
    ensures v.EnterChar(c).DeleteChar() == v
  {
    assert (v.input + [c])[..|v.input|] == v.input;
  }

  /** Reset closes the dialog and clears the buffer, leaving links and index alone. */
  lemma ResetReturnsToMain(v: AppView)
    ensures v.Reset().input == [] && v.Reset().screen == Main && v.Reset().mode == Normal
    ensures v.Reset().links == v.links && v.Reset().characterIndex == v.characterIndex
    ensures v.Reset().Invariant()
  {
  }

  /**
   Submitting appends exactly one in-progress link holding the old buffer, keeps
   the old links as a prefix, and returns to the main screen with an empty buffer.
   */
  lemma AddToDownloadListAppendsOne(v: AppView)
    ensures v.AddToDownloadList().links == v.links + [Link(v.input, InProgress)]
    ensures |v.AddToDownloadList().links| == |v.links| + 1
    ensures v.AddToDownloadList().links[..|v.links|] == v.links
    ensures v.AddToDownloadList().input == []
    ensures v.AddToDownloadList().screen == Main && v.AddToDownloadList().mode == Normal
    ensures v.AddToDownloadList().characterIndex == v.characterIndex
  {
    assert (v.links + [NewLink(v.input)])[..|v.links|] == v.links;
  }

  /** One call of `enter_char` or `paste`. */
  datatype Edit = Typed(c: char) | Pasted(s: string)

  function ApplyEdit(v: AppView, e: Edit): AppView
  {
    match e
    case Typed(c) => v.EnterChar(c)
    case Pasted(s) => v.Paste(s)
  }

  /** Applies the edits first to last. */
  function ApplyEdits(v: AppView, edits: seq<Edit>): AppView
    decreases |edits|
  {
    if edits == [] then v else ApplyEdits(ApplyEdit(v, edits[0]), edits[1..])
  }

  /** The text the edits carry, in order. */
  function Pieces(edits: seq<Edit>): string
    decreases |edits|
  {
    if edits == [] then []
    else (match edits[0] case Typed(c) => [c] case Pasted(s) => s) + Pieces(edits[1..])
  }

  /**
   Any run of `enter_char` and `paste` calls leaves the buffer equal to the old
   buffer followed by every piece in order, and changes nothing else.
   */
  lemma {:induction false} ApplyEditsConcatenates(v: AppView, edits: seq<Edit>)
    ensures ApplyEdits(v, edits) == v.(input := v.input + Pieces(edits))
    decreases |edits|
  {
    if edits != [] {
      var w := ApplyEdit(v, edits[0]);
      var head := match edits[0] case Typed(c) => [c] case Pasted(s) => s;
      assert w == v.(input := v.input + head);
      ApplyEditsConcatenates(w, edits[1..]);
      assert Pieces(edits) == head + Pieces(edits[1..]);
      assert v.input + head + Pieces(edits[1..]) == v.input + Pieces(edits);
    }
  }

  /** The mutable application record. */
  class App {
    var links: seq<Link>
    var currentScreen: CurrentScreen
    var inputMode: InputMode
    var input: string
    /** Initialised and never read or updated. */
    var characterIndex: nat

    function View(): AppView
      reads this
    {
      AppView(links, currentScreen, inputMode, input, characterIndex)
    }

    constructor ()
      ensures links == [] && currentScreen == Main && inputMode == Normal
      ensures input == [] && characterIndex == 0
      ensures View() == InitialView()
    {
      links := [];
      currentScreen := Main;
      inputMode := Normal;
      input := [];
      characterIndex := 0;
    }

    method Paste(s: string)
      modifies this
      ensures input == old(input) + s
      ensures View() == old(View()).Paste(s)
    {
      input := input + s;
    }

    method EnterChar(c: char)
      modifies this
      ensures input == old(input) + [c]
      ensures View() == old(View()).EnterChar(c)
    {
      input := input + [c];
    }

    method DeleteChar()
      modifies this
      ensures old(input) == [] ==> input == []
      ensures old(input) != [] ==> input == old(input)[..|old(input)| - 1]
      ensures View() == old(View()).DeleteChar()
    {
      if input != [] {
        input := input[..|input| - 1];
      }
    }

    method AddToDownloadList()
      modifies this
      ensures links == old(links) + [NewLink(old(input))]
      ensures input == [] && currentScreen == Main && inputMode == Normal
      ensures View() == old(View()).AddToDownloadList()
    {
      links := links + [NewLink(input)];
      Reset();
    }

    method Reset()
      modifies this
      ensures input == [] && currentScreen == Main && inputMode == Normal
      ensures links == old(links) && characterIndex == old(characterIndex)
      ensures View() == old(View()).Reset()
    {
      input := [];
      currentScreen := Main;
      inputMode := Normal;
    }
  }
}
