/**
 * The capture loop of the labelling tool (1_sammeln/collector_pro.py, lines
 * 39-48 and 189-240): camera frames are saved into the folder of the current
 * class, by hand with the space key or every fifth frame in auto mode, the
 * image count of that folder is shown, and the class is chosen in the dialog.
 * The camera, the clock, the keyboard, the dialog and the folder listings are
 * inputs of each frame; writing the image itself is left to the caller.
 */
module Capture {
  import opened Wrappers
  import opened PyText
  import opened PyList
  import ClassList

  // ---------------------------------------------------------- image count

  /** One entry of a folder listing: its name and whether it is a regular file. */
  datatype Entry = Entry(name: string, isFile: bool)

  /** Line 45: the extensions counted as images. */
  const IMAGE_EXTENSIONS: set<string> := {".jpg", ".jpeg", ".png", ".bmp"}

  /** The position of the last `.` in `s`, if any. */
  function LastDot(s: string): (r: Option<nat>)
    ensures r.Some? ==> r.value < |s| && s[r.value] == '.' && forall k | r.value < k < |s| :: s[k] != '.'
    ensures r.None? ==> forall k | 0 <= k < |s| :: s[k] != '.'
    decreases |s|
  {
    if s == [] then None
    else if s[|s| - 1] == '.' then Some(|s| - 1)
    else LastDot(s[..|s| - 1])
  }

  /**
   * Line 48: `os.path.splitext(f)[1]` for a bare file name. The extension runs
   * from the last dot to the end, unless only dots come before that dot (a
   * hidden file such as `.png` has no extension).
   */
  function Extension(name: string): (r: string)
    ensures r != "" ==> exists i | 0 < i < |name| ::
      && name[i] == '.' && r == name[i..]
      && (forall k | i < k < |name| :: name[k] != '.')
      && (exists k | 0 <= k < i :: name[k] != '.')
    ensures r == "" ==> forall i, k | 0 <= k < i < |name| && name[i] == '.' && (forall m | i < m < |name| :: name[m] != '.') ::
      name[k] == '.'
  {
    match LastDot(name)
    case None => ""
    case Some(i) => if forall k | 0 <= k < i :: name[k] == '.' then "" else name[i..]
  }

  /** Lines 47-48: a regular file whose extension, in lower case, is an image extension. */
  predicate IsImage(e: Entry) {
    e.isFile && Lower(Extension(e.name)) in IMAGE_EXTENSIONS
  }

  /** The images of a listing, in listing order. */
  function ImageFiles(entries: seq<Entry>): (r: seq<Entry>)
    ensures |r| <= |entries|
    ensures forall e :: e in r <==> e in entries && IsImage(e)
    decreases |entries|
  {
    if entries == [] then []
    else
      var init := entries[..|entries| - 1];
      var last := entries[|entries| - 1];
      assert entries == init + [last];
      ImageFiles(init) + (if IsImage(last) then [last] else [])
  }

  /**
   * Lines 39-48: `get_image_count`; `listing` is the class folder's content,
   * `None` when the folder does not exist.
   */
  function ImageCount(listing: Option<seq<Entry>>): (r: nat)
    ensures listing.None? ==> r == 0
    ensures listing.Some? ==> r == |ImageFiles(listing.value)| && r <= |listing.value|
  {
    if listing.None? then 0 else |ImageFiles(listing.value)|
  }

  /** A new entry at the end of a listing raises the count by one exactly when it is an image. */
  lemma ImageCountAppend(entries: seq<Entry>, e: Entry)
    ensures ImageCount(Some(entries + [e])) == ImageCount(Some(entries)) + (if IsImage(e) then 1 else 0)
  {
    var all := entries + [e];
    assert all[..|all| - 1] == entries;
  }

  /** Lines 211 and 227: a frame written into the folder adds one to its image count. */
  lemma SavedFrameCounted(entries: seq<Entry>, cls: string, stamp: string)
    ensures ImageCount(Some(entries + [Entry(AutoFileName(cls, stamp), true)])) == ImageCount(Some(entries)) + 1
    ensures ImageCount(Some(entries + [Entry(ManualFileName(cls, stamp), true)])) == ImageCount(Some(entries)) + 1
  {
    SavedFramesAreImages(cls, stamp);
    ImageCountAppend(entries, Entry(AutoFileName(cls, stamp), true));
    ImageCountAppend(entries, Entry(ManualFileName(cls, stamp), true));
  }

  /** A name made of a stem holding something other than a dot, and `.jpg`, has the extension `.jpg`. */
  lemma JpgExtension(stem: string, k: nat)
    requires k < |stem| && stem[k] != '.'
    ensures Extension(stem + ".jpg") == ".jpg"
  {
    var name := stem + ".jpg";
    assert name[|stem|] == '.';
    assert name[|stem| + 1..] == "jpg";
    assert LastDot(name) == Some(|stem|) by {
      assert name[..|name| - 1][..|name| - 2][..|name| - 3] == name[..|stem| + 1];
      assert name[|name| - 1] == 'g' && name[|name| - 2] == 'p' && name[|name| - 3] == 'j';
    }
    assert name[k] == stem[k];
    assert name[|stem|..] == ".jpg";
  }

  /** `.jpg`, in lower case, is an image extension. */
  lemma JpgIsImageExtension()
    ensures Lower(".jpg") in IMAGE_EXTENSIONS
  {
    assert Lower(".jpg") == ".jpg";
  }

  /** Line 48: the case of the extension does not matter. */
  lemma UpperCaseExtensionCounted()
    ensures IsImage(Entry("foo.JPG", true))
  {
    assert LastDot("foo.JPG") == Some(3) by {
      assert "foo.JPG"[..6][..5][..4] == "foo.";
    }
    assert "foo.JPG"[0] != '.' && "foo.JPG"[3..] == ".JPG";
    var ext := Lower(".JPG");
    assert ext[0] == '.' && ext[1] == 'j' && ext[2] == 'p' && ext[3] == 'g';
    assert ext == ".jpg";
  }

  /** Line 48: only the part after the last dot is the extension. */
  lemma LastExtensionCounted()
    ensures IsImage(Entry("a.tar.png", true))
  {
    assert LastDot("a.tar.png") == Some(5) by {
      assert "a.tar.png"[..8][..7][..6] == "a.tar.";
    }
    assert "a.tar.png"[0] != '.' && "a.tar.png"[5..] == ".png";
    assert Lower(".png") == ".png";
  }

  /** Line 48: a file with another extension is not counted. */
  lemma OtherExtensionNotCounted()
    ensures !IsImage(Entry("foo.gif", true))
  {
    assert LastDot("foo.gif") == Some(3) by {
      assert "foo.gif"[..6][..5][..4] == "foo.";
    }
    assert "foo.gif"[3..] == ".gif";
    assert Lower(".gif") == ".gif";
  }

  /** Line 48: a hidden file such as `.png` has no extension and is not counted. */
  lemma HiddenFileNotCounted()
    ensures !IsImage(Entry(".png", true))
  {
    assert LastDot(".png") == Some(0) by {
      assert ".png"[..3][..2][..1] == ".";
    }
    assert Lower("") == "";
  }


  // ------------------------------------------------------------ the loop

  /** Lines 226-240: the key codes the loop reacts to, `ord(' ')`, `ord('a')`, `ord('k')` and `ord('q')`. */
  const KEY_SAVE: nat := 32
  const KEY_AUTO: nat := 97
  const KEY_CHOOSE: nat := 107
  const KEY_QUIT: nat := 113

  /** Line 210: auto mode saves every fifth frame. */
  const AUTO_INTERVAL: nat := 5

  /** Line 224: `cv2.waitKey(1) & 0xFF`, the low byte of the key code (no key, -1, gives 255). */
  function KeyCode(rawKey: int): (r: nat)
    ensures r < 256 && (rawKey - r) % 256 == 0
  {
    rawKey % 256
  }

  /** Line 211: the name of a frame saved in auto mode; `stamp` is the text of `time.time()`. */
  function AutoFileName(cls: string, stamp: string): string {
    cls + "_auto_" + stamp + ".jpg"
  }

  /** Line 227: the name of a frame saved with the space key. */
  function ManualFileName(cls: string, stamp: string): string {
    cls + "_" + stamp + ".jpg"
  }

  /** Lines 211 and 227: whatever the class and the clock text, a saved frame has the extension `.jpg` and counts as an image. */
  lemma SavedFramesAreImages(cls: string, stamp: string)
    ensures Extension(AutoFileName(cls, stamp)) == ".jpg" && IsImage(Entry(AutoFileName(cls, stamp), true))
    ensures Extension(ManualFileName(cls, stamp)) == ".jpg" && IsImage(Entry(ManualFileName(cls, stamp), true))
  {
    var auto, manual := cls + "_auto_" + stamp, cls + "_" + stamp;
    assert AutoFileName(cls, stamp) == auto + ".jpg" && auto[|cls|] == '_';
    assert ManualFileName(cls, stamp) == manual + ".jpg" && manual[|cls|] == '_';
    JpgExtension(auto, |cls|);
    JpgExtension(manual, |cls|);
    JpgIsImageExtension();
  }

  /** Lines 233-234: what the class dialog returns, and the list `load_classes` reads back when it was changed. */
  datatype DialogResult = DialogResult(selected: Option<string>, modified: bool, reloaded: seq<string>)

  /**
   * Everything one pass of the loop takes from outside: whether the camera
   * gave a frame, the key code, the clock text and the class folder's listing
   * after each save, the dialog's answer and the new class's folder listing.
   */
  datatype FrameInput = FrameInput(
    gotFrame: bool,
    rawKey: int,
    autoStamp: string,
    autoListing: Option<seq<Entry>>,
    manualStamp: string,
    manualListing: Option<seq<Entry>>,
    dialog: DialogResult,
    chosenListing: Option<seq<Entry>>)

  /** How a pass of the loop ends: on to the next frame, or out of the loop by `break` or by an `IndexError`. */
  datatype Status = Running | CameraEnded | Quit | Crashed

  /** The loop's variables (lines 193-196). */
  datatype LoopState = LoopState(classes: seq<string>, classIdx: nat, autoMode: bool, frameCounter: nat, count: nat)

  /** The outcome of one pass: the new variables, how it ended and the names of the images written. */
  datatype Step = Step(state: LoopState, status: Status, autoSave: Option<string>, manualSave: Option<string>)

  /** Lines 234-238: after the dialog, reload a changed list and switch to the chosen class if the list holds it. */
  function Choose(st: LoopState, d: DialogResult, listing: Option<seq<Entry>>): (r: LoopState)
    ensures r.classes == (if d.modified then d.reloaded else st.classes)
    ensures r.autoMode == st.autoMode && r.frameCounter == st.frameCounter
    ensures d.selected.Some? && d.selected.value != "" && d.selected.value in r.classes ==>
      && r.classIdx < |r.classes| && r.classes[r.classIdx] == d.selected.value
      && d.selected.value !in r.classes[..r.classIdx]
      && r.count == ImageCount(listing)
    ensures !(d.selected.Some? && d.selected.value != "" && d.selected.value in r.classes) ==>
      r.classIdx == st.classIdx && r.count == st.count
  {
    var classes := if d.modified then d.reloaded else st.classes;
    if d.selected.Some? && d.selected.value != "" && d.selected.value in classes then
      st.(classes := classes, classIdx := IndexOf(classes, d.selected.value).value, count := ImageCount(listing))
    else
      st.(classes := classes)
  }

  /**
   * Line 187: the dialog hands back its selection and its modified flag.
   * Each change is saved before the flag is set (lines 90-91 and 124-125),
   * so the list `load_classes` reads back after a change is the dialog's own.
   */
  function DialogOutcome(d: ClassList.ClassDialog): (r: DialogResult)
    reads d
    ensures r.selected == d.selected && r.modified == d.modified
    ensures r.modified ==> r.reloaded == d.classes
  {
    DialogResult(d.selected, d.modified, d.classes)
  }

  /**
   * Lines 232-238 after the dialog closes: the loop continues in the dialog's
   * list when it was changed, on the class the dialog selected when that list
   * holds it, and on the old class otherwise.
   */
  lemma ChooseFromDialog(st: LoopState, d: ClassList.ClassDialog, listing: Option<seq<Entry>>)
    ensures var r := Choose(st, DialogOutcome(d), listing);
      && r.classes == (if d.modified then d.classes else st.classes)
      && (d.selected.Some? && d.selected.value != "" && d.selected.value in r.classes ==>
            r.classIdx < |r.classes| && r.classes[r.classIdx] == d.selected.value && r.count == ImageCount(listing))
      && (d.selected.None? ==> r.classIdx == st.classIdx && r.count == st.count)
  {
  }

  /** Lines 202-240: one pass of the capture loop. */
  function Next(st: LoopState, input: FrameInput): (r: Step)
    ensures !input.gotFrame ==> r == Step(st, CameraEnded, None, None)
    ensures input.gotFrame && st.classIdx >= |st.classes| ==> r == Step(st, Crashed, None, None)
    ensures input.gotFrame && st.classIdx < |st.classes| ==>
      && r.state.frameCounter == st.frameCounter + 1
      && (r.status == Quit <==> KeyCode(input.rawKey) == KEY_QUIT)
      && (r.status == Running <==> KeyCode(input.rawKey) != KEY_QUIT)
    ensures r.manualSave.Some? <==> input.gotFrame && st.classIdx < |st.classes| && KeyCode(input.rawKey) == KEY_SAVE
    ensures r.manualSave.Some? ==> r.manualSave.value == ManualFileName(st.classes[st.classIdx], input.manualStamp)
    ensures r.manualSave.Some? ==> r.state.count == ImageCount(input.manualListing)
    ensures KeyCode(input.rawKey) != KEY_CHOOSE ==> r.state.classes == st.classes && r.state.classIdx == st.classIdx
  {
    if !input.gotFrame then Step(st, CameraEnded, None, None)
    else if st.classIdx >= |st.classes| then Step(st, Crashed, None, None)
    else
      var cls := st.classes[st.classIdx];
      var (s1, autoSave) := Advance(st, cls, input);
      var (s2, status, manualSave) := React(s1, cls, input);
      Step(s2, status, autoSave, manualSave)
  }

  /** Lines 207-213: count the frame and, in auto mode on every fifth frame, save it into the folder of `cls`. */
  function Advance(st: LoopState, cls: string, input: FrameInput): (r: (LoopState, Option<string>))
    ensures r.0 == st.(frameCounter := r.0.frameCounter, count := r.0.count)
    ensures r.0.frameCounter == st.frameCounter + 1
    ensures r.1.Some? <==> st.autoMode && r.0.frameCounter % AUTO_INTERVAL == 0
    ensures r.1.Some? ==> r.1.value == AutoFileName(cls, input.autoStamp) && r.0.count == ImageCount(input.autoListing)
    ensures r.1.None? ==> r.0.count == st.count
  {
    var counter := st.frameCounter + 1;
    if st.autoMode && counter % AUTO_INTERVAL == 0 then
      (st.(frameCounter := counter, count := ImageCount(input.autoListing)), Some(AutoFileName(cls, input.autoStamp)))
    else
      (st.(frameCounter := counter), None)
  }

  /** Lines 224-240: act on the key pressed during the frame; a manual save goes into the folder of `cls`. */
  function React(st: LoopState, cls: string, input: FrameInput): (r: (LoopState, Status, Option<string>))
    ensures r.1 == (if KeyCode(input.rawKey) == KEY_QUIT then Quit else Running)
    ensures r.2.Some? <==> KeyCode(input.rawKey) == KEY_SAVE
    ensures r.2.Some? ==> r.2.value == ManualFileName(cls, input.manualStamp) && r.0 == st.(count := ImageCount(input.manualListing))
    ensures KeyCode(input.rawKey) == KEY_AUTO ==> r.0 == st.(autoMode := !st.autoMode)
    ensures KeyCode(input.rawKey) == KEY_CHOOSE ==> r.0 == Choose(st.(autoMode := false), input.dialog, input.chosenListing)
    ensures KeyCode(input.rawKey) !in {KEY_SAVE, KEY_AUTO, KEY_CHOOSE} ==> r.0 == st
  {
    var key := KeyCode(input.rawKey);
    if key == KEY_SAVE then (st.(count := ImageCount(input.manualListing)), Running, Some(ManualFileName(cls, input.manualStamp)))
    else if key == KEY_AUTO then (st.(autoMode := !st.autoMode), Running, None)
    else if key == KEY_CHOOSE then (Choose(st.(autoMode := false), input.dialog, input.chosenListing), Running, None)
    else if key == KEY_QUIT then (st, Quit, None)
    else (st, Running, None)
  }

  // -------------------------------------------------- properties of a pass

  /** Line 210: a frame is saved in auto mode exactly when the incremented frame counter is a multiple of five. */
  lemma AutoSaveRule(st: LoopState, input: FrameInput)
    ensures Next(st, input).autoSave.Some? <==>
      input.gotFrame && st.classIdx < |st.classes| && st.autoMode && (st.frameCounter + 1) % 5 == 0
    ensures Next(st, input).autoSave.Some? ==>
      && Next(st, input).autoSave.value == AutoFileName(st.classes[st.classIdx], input.autoStamp)
      && (KeyCode(input.rawKey) != KEY_SAVE && KeyCode(input.rawKey) != KEY_CHOOSE ==>
            Next(st, input).state.count == ImageCount(input.autoListing))
  {
  }

  /** Lines 229-232: `a` toggles auto mode, `k` always switches it off, every other key leaves it. */
  lemma AutoModeKeys(st: LoopState, input: FrameInput)
    requires input.gotFrame && st.classIdx < |st.classes|
    ensures KeyCode(input.rawKey) == KEY_AUTO ==> Next(st, input).state.autoMode == !st.autoMode
    ensures KeyCode(input.rawKey) == KEY_CHOOSE ==> !Next(st, input).state.autoMode
    ensures KeyCode(input.rawKey) != KEY_AUTO && KeyCode(input.rawKey) != KEY_CHOOSE ==>
      Next(st, input).state.autoMode == st.autoMode
  {
  }

  /**
   * Lines 236-238: the current class changes only through the dialog, only to
   * a class the (possibly reloaded) list holds, and then to its first position.
   */
  lemma ClassIndexRule(st: LoopState, input: FrameInput)
    ensures var r := Next(st, input).state;
      r.classIdx != st.classIdx ==>
        && KeyCode(input.rawKey) == KEY_CHOOSE
        && input.dialog.selected.Some? && r.classIdx < |r.classes|
        && r.classes[r.classIdx] == input.dialog.selected.value
        && IndexOf(r.classes, input.dialog.selected.value) == Some(r.classIdx)
    ensures var r := Next(st, input).state;
      input.gotFrame && st.classIdx < |st.classes| && KeyCode(input.rawKey) == KEY_CHOOSE
      && input.dialog.selected.Some? && input.dialog.selected.value != "" && input.dialog.selected.value in r.classes ==>
        IndexOf(r.classes, input.dialog.selected.value) == Some(r.classIdx)
  {
    var r := Next(st, input).state;
    var sel := input.dialog.selected;
    if sel.Some? && sel.value in r.classes {
      var i := IndexOf(r.classes, sel.value);
      if r.classIdx < |r.classes| && r.classes[r.classIdx] == sel.value && sel.value !in r.classes[..r.classIdx] {
        IndexOfFirst(r.classes, sel.value, r.classIdx);
      }
    }
  }

  /** A position holding `x` with no earlier `x` is the one `IndexOf` finds. */
  lemma IndexOfFirst(s: seq<string>, x: string, i: nat)
    requires i < |s| && s[i] == x && x !in s[..i]
    ensures IndexOf(s, x) == Some(i)
  {
    var j := IndexOf(s, x);
    assert j.Some?;
    forall k | 0 <= k < i ensures s[k] != x {
      assert s[..i][k] == s[k];
    }
    forall k | 0 <= k < j.value ensures s[k] != x {
      assert s[..j.value][k] == s[k];
    }
  }

  /** Line 224: only the low byte of the key code matters, and no key at all (-1) does nothing but count the frame. */
  lemma KeyLowByte(st: LoopState, input: FrameInput)
    ensures Next(st, input.(rawKey := input.rawKey + 256)) == Next(st, input)
    ensures input.gotFrame && st.classIdx < |st.classes| && input.rawKey == -1 ==>
      && Next(st, input).status == Running
      && Next(st, input).manualSave.None?
      && Next(st, input).state.autoMode == st.autoMode
  {
    assert KeyCode(input.rawKey + 256) == KeyCode(input.rawKey);
  }

  /**
   * Lines 206 and 128-129: once the dialog has deleted every class, the next
   * frame with a picture ends the loop with an `IndexError`.
   */
  lemma EmptiedListCrashes(st: LoopState, input: FrameInput, following: FrameInput)
    requires input.gotFrame && st.classIdx < |st.classes| && KeyCode(input.rawKey) == KEY_CHOOSE
    requires input.dialog.modified && input.dialog.reloaded == []
    requires following.gotFrame
    ensures Next(st, input).status == Running
    ensures Next(Next(st, input).state, following).status == Crashed
  {
  }

  // -------------------------------------------------------- several passes

  /** The number of frames saved in auto mode over a sequence of passes, stopping where the loop ends. */
  function AutoSaves(st: LoopState, inputs: seq<FrameInput>): (r: nat)
    ensures r <= |inputs|
    decreases |inputs|
  {
    if inputs == [] then 0
    else
      var step := Next(st, inputs[0]);
      (if step.autoSave.Some? then 1 else 0) + (if step.status == Running then AutoSaves(step.state, inputs[1..]) else 0)
  }

  /** Passes where the camera delivers and no key the loop reacts to is pressed. */
  predicate Quiet(inputs: seq<FrameInput>) {
    forall i | 0 <= i < |inputs| ::
      inputs[i].gotFrame && KeyCode(inputs[i].rawKey) !in {KEY_SAVE, KEY_AUTO, KEY_CHOOSE, KEY_QUIT}
  }

  /** One quiet pass in auto mode keeps the class and auto mode, counts the frame and saves it on a multiple of five. */
  lemma QuietStep(st: LoopState, input: FrameInput)
    requires st.autoMode && st.classIdx < |st.classes|
    requires input.gotFrame && KeyCode(input.rawKey) !in {KEY_SAVE, KEY_AUTO, KEY_CHOOSE, KEY_QUIT}
    ensures var step := Next(st, input);
      && step.status == Running && step.state.autoMode
      && step.state.classes == st.classes && step.state.classIdx == st.classIdx
      && step.state.frameCounter == st.frameCounter + 1
      && (step.autoSave.Some? <==> (st.frameCounter + 1) % 5 == 0)
  {
  }

  /** Advancing a counter by one reaches a new multiple of five exactly when the new value is one. */
  lemma FifthStep(c: nat)
    ensures (c + 1) / 5 - c / 5 == if (c + 1) % 5 == 0 then 1 else 0
  {
  }

  /**
   * Line 210 over a run: with auto mode on and no key pressed, `n` frames
   * after the counter stood at `c` save exactly as many images as there are
   * multiples of five in `c + 1 .. c + n`.
   */
  lemma {:induction false} AutoSavesInRun(st: LoopState, inputs: seq<FrameInput>)
    requires st.autoMode && st.classIdx < |st.classes| && Quiet(inputs)
    ensures AutoSaves(st, inputs) == (st.frameCounter + |inputs|) / 5 - st.frameCounter / 5
    decreases |inputs|
  {
    if inputs != [] {
      var step := Next(st, inputs[0]);
      QuietStep(st, inputs[0]);
      assert Quiet(inputs[1..]) by {
        forall i | 0 <= i < |inputs[1..]| ensures inputs[1..][i] == inputs[i + 1] { }
      }
      AutoSavesInRun(step.state, inputs[1..]);
      FifthStep(st.frameCounter);
    }
  }

  /** Any five quiet frames in auto mode save exactly one image. */
  lemma OneInFive(st: LoopState, inputs: seq<FrameInput>)
    requires st.autoMode && st.classIdx < |st.classes| && Quiet(inputs) && |inputs| == 5
    ensures AutoSaves(st, inputs) == 1
  {
    AutoSavesInRun(st, inputs);
  }

  // --------------------------------------------------------- the collector

  /** Lines 189-240: the capture loop's variables, updated frame by frame. */
  class Collector {
    var classes: seq<string>
    var classIdx: nat
    var autoMode: bool
    var frameCounter: nat
    var count: nat

    function State(): LoopState
      reads this
    {
      LoopState(classes, classIdx, autoMode, frameCounter, count)
    }

    /**
     * Lines 193-196: start on the first class, with its folder's count, auto
     * mode off and no frame seen. `listing` is that folder's content.
     */
    constructor (classes0: seq<string>, listing: Option<seq<Entry>>)
      requires |classes0| > 0
      ensures State() == LoopState(classes0, 0, false, 0, ImageCount(listing))
    {
      classes := classes0;
      classIdx := 0;
      autoMode := false;
      frameCounter := 0;
      count := ImageCount(listing);
    }

    /** Lines 202-240: one pass of the loop, with the images it writes. */
    method Frame(input: FrameInput) returns (status: Status, autoSave: Option<string>, manualSave: Option<string>)
      modifies this
      ensures Step(State(), status, autoSave, manualSave) == Next(old(State()), input)
    {
      if !input.gotFrame {
        return CameraEnded, None, None;
      }
      if classIdx >= |classes| {
        return Crashed, None, None;
      }
      var currentClass := classes[classIdx];
      autoSave := CountFrame(currentClass, input);
      status, manualSave := HandleKey(currentClass, input);
    }

    /** Lines 207-213: count the frame and save it in auto mode on every fifth frame. */
    method CountFrame(currentClass: string, input: FrameInput) returns (autoSave: Option<string>)
      modifies this
      ensures State() == Advance(old(State()), currentClass, input).0
      ensures autoSave == Advance(old(State()), currentClass, input).1
    {
      autoSave := None;
      frameCounter := frameCounter + 1;
      if autoMode && frameCounter % AUTO_INTERVAL == 0 {
        autoSave := Some(AutoFileName(currentClass, input.autoStamp));
        count := ImageCount(input.autoListing);
      }
      assert State() == old(State()).(frameCounter := frameCounter, count := count);
    }

    /** Lines 224-240: act on the key pressed during the frame. */
    method HandleKey(currentClass: string, input: FrameInput) returns (status: Status, manualSave: Option<string>)
      modifies this
      ensures (State(), status, manualSave) == React(old(State()), currentClass, input)
    {
      var key := KeyCode(input.rawKey);
      status, manualSave := Running, None;
      if key == KEY_SAVE {
        manualSave := Some(ManualFileName(currentClass, input.manualStamp));
        count := ImageCount(input.manualListing);
      } else if key == KEY_AUTO {
        autoMode := !autoMode;
      } else if key == KEY_CHOOSE {
        autoMode := false;
        var d := input.dialog;
        if d.modified {
          classes := d.reloaded;
        }
        if d.selected.Some? && d.selected.value != "" && d.selected.value in classes {
          classIdx := IndexOf(classes, d.selected.value).value;
          count := ImageCount(input.chosenListing);
        }
      } else if key == KEY_QUIT {
        status := Quit;
      }
    }
  }
}
