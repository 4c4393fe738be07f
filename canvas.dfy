/** The component's drawing state as a value, with one transition per event handler of
    src/App.js. These functions are the specification the class in module Component is
    proved against; the lemmas below are about sequences of events. */
module Canvas {
  import opened Wrappers
  import opened Style
  import opened Strokes
  import opened Upload

  /** tool, lines, history, the isDrawing flag, the dropped file and the decoded
      background image (src/App.js:8-17). The background is named by the file it was
      decoded from. */
  datatype State = State(
    tool: string,
    lines: seq<Stroke>,
    history: seq<seq<Stroke>>,
    isDrawing: bool,
    file: Option<FileInfo>,
    background: Option<FileInfo>)

  /** What every handler keeps: a selectable tool, well-formed strokes on the canvas and
      in every snapshot, and a held file that passed the drop test. */
  predicate Valid(s: State) {
    && IsTool(s.tool)
    && AllWellFormed(s.lines)
    && AllSnapshotsWellFormed(s.history)
    && (s.file.Some? ==> IsImageType(s.file.value.mimeType))
  }

  /** No drag is pending, so what is drawn is exactly the newest snapshot. */
  predicate Committed(s: State) {
    !s.isDrawing ==> s.lines == Top(s.history)
  }

  /** The state on mount. */
  function Initial(): (s: State)
    ensures Valid(s) && Committed(s)
    ensures s.tool == Pencil && s.lines == [] && s.history == [] && !s.isDrawing
    ensures s.file == None && s.background == None
  {
    State(Pencil, [], [], false, None, None)
  }

  /** Pointer-down (src/App.js:97-101): raise the flag and start a new stroke with the
      current tool at the pressed point; nothing else changes. A drag already in progress
      is not guarded against. */
  function PointerDown(s: State, p: Point): (r: State)
    ensures r.isDrawing
    ensures |r.lines| == |s.lines| + 1 && r.lines[..|s.lines|] == s.lines
    ensures r.lines[|s.lines|].tool == s.tool && r.lines[|s.lines|].points == [p.x, p.y]
    ensures r.(lines := s.lines, isDrawing := s.isDrawing) == s
    ensures Valid(s) ==> Valid(r)
  {
    s.(isDrawing := true, lines := s.lines + [Started(s.tool, p)])
  }

  /** Pointer-move (src/App.js:103-114). Without a pending drag it returns at once. With
      one, the last stroke gets the point appended and replaces itself in the list. When
      there is no stroke at all (the list was cleared or undone while the drag was
      pending) reading the last stroke's points throws before anything is assigned, so
      the state is unchanged. */
  function PointerMove(s: State, p: Point): (r: State)
    ensures !s.isDrawing ==> r == s
    ensures s.lines == [] ==> r == s
    ensures s.isDrawing && s.lines != [] ==>
      var n := |s.lines|;
      && |r.lines| == n
      && r.lines[..n - 1] == s.lines[..n - 1]
      && r.lines[n - 1].tool == s.lines[n - 1].tool
      && r.lines[n - 1].points == s.lines[n - 1].points + [p.x, p.y]
    ensures r.(lines := s.lines) == s
    ensures Valid(s) ==> Valid(r)
  {
    if !s.isDrawing || s.lines == [] then s
    else
      var last := s.lines[|s.lines| - 1];
      s.(lines := ReplaceLast(s.lines, Extended(last, p)))
  }

  /** Thrown on pointer-move: a drag is pending but there is no stroke to extend. */
  predicate MoveThrows(s: State) {
    s.isDrawing && s.lines == []
  }

  /** Pointer-up (src/App.js:116-119): lower the flag and push the current strokes as a
      new snapshot, whether or not a drag was pending. */
  function PointerUp(s: State): (r: State)
    ensures !r.isDrawing
    ensures |r.history| == |s.history| + 1
    ensures r.history[..|s.history|] == s.history && r.history[|s.history|] == s.lines
    ensures r.(history := s.history, isDrawing := s.isDrawing) == s
    ensures Valid(s) ==> Valid(r)
  {
    s.(isDrawing := false, history := s.history + [s.lines])
  }

  /** Undo (src/App.js:122-134): nothing without history; with one snapshot, no strokes
      and no history; otherwise the second newest snapshot is drawn and the newest one
      dropped. The flag, tool and file are untouched. */
  function Undo(s: State): (r: State)
    ensures |s.history| == 0 ==> r == s
    ensures |s.history| == 1 ==> r.lines == [] && r.history == []
    ensures |s.history| >= 2 ==>
      && r.lines == s.history[|s.history| - 2]
      && r.history == s.history[..|s.history| - 1]
    ensures r.(lines := s.lines, history := s.history) == s
    ensures Valid(s) ==> Valid(r)
  {
    if |s.history| == 0 then s
    else if |s.history| == 1 then s.(lines := [], history := [])
    else s.(lines := s.history[|s.history| - 2], history := s.history[..|s.history| - 1])
  }

  /** Clear (src/App.js:137-141): no strokes and no history, from any state. */
  function Clear(s: State): (r: State)
    ensures r.lines == [] && r.history == []
    ensures r.(lines := s.lines, history := s.history) == s
    ensures Valid(s) ==> Valid(r) && Committed(r)
  {
    s.(lines := [], history := [])
  }

  /** A toolbar tool button (src/App.js:169-173). */
  function SelectTool(s: State, b: ToolButton): (r: State)
    ensures IsTool(r.tool) && (r.tool == Eraser <==> b == EraserButton)
    ensures r.(tool := s.tool) == s
    ensures Valid(s) ==> Valid(r)
  {
    s.(tool := ToolName(b))
  }

  /** File drop (src/App.js:62-74): an accepted file becomes the held file; anything else
      is refused with an alert and the state stays as it was. */
  function FileDrop(s: State, dropped: Option<FileInfo>): (r: State)
    ensures Accepts(dropped) ==> r.file == dropped
    ensures !Accepts(dropped) ==> r == s
    ensures r.(file := s.file) == s
    ensures Valid(s) ==> Valid(r)
  {
    if Accepts(dropped) then s.(file := dropped) else s
  }

  /** The trash icon (src/App.js:76-79): no file and no background. */
  function DeleteFile(s: State): (r: State)
    ensures r.file == None && r.background == None
    ensures r.(file := s.file, background := s.background) == s
    ensures Valid(s) ==> Valid(r)
  {
    s.(file := None, background := None)
  }

  /** The image decoded from a dropped file has finished loading (src/App.js:27-29) and
      becomes the background, with no check that it still belongs to the held file. */
  function BackgroundLoaded(s: State, f: FileInfo): (r: State)
    ensures r.background == Some(f)
    ensures r.(background := s.background) == s
    ensures Valid(s) ==> Valid(r)
  {
    s.(background := Some(f))
  }

  /** The events the component reacts to. */
  datatype Event =
    | Down(p: Point)
    | Move(p: Point)
    | Up
    | UndoClick
    | ClearClick
    | ToolClick(button: ToolButton)
    | Drop(dropped: Option<FileInfo>)
    | DeleteClick
    | ImageLoaded(image: FileInfo)

  function Step(s: State, e: Event): State {
    match e
    case Down(p) => PointerDown(s, p)
    case Move(p) => PointerMove(s, p)
    case Up => PointerUp(s)
    case UndoClick => Undo(s)
    case ClearClick => Clear(s)
    case ToolClick(b) => SelectTool(s, b)
    case Drop(f) => FileDrop(s, f)
    case DeleteClick => DeleteFile(s)
    case ImageLoaded(f) => BackgroundLoaded(s, f)
  }

  /** The state after handling the events one after the other. */
  function Run(s: State, events: seq<Event>): State
    decreases |events|
  {
    if events == [] then s else Run(Step(s, events[0]), events[1..])
  }

  lemma {:induction false} RunAppend(s: State, a: seq<Event>, b: seq<Event>)
    ensures Run(s, a + b) == Run(Run(s, a), b)
    decreases |a|
  {
    if a == [] {
      assert a + b == b;
    } else {
      assert (a + b)[0] == a[0];
      assert (a + b)[1..] == a[1..] + b;
      RunAppend(Step(s, a[0]), a[1..], b);
    }
  }

  lemma StepPreservesValid(s: State, e: Event)
    requires Valid(s)
    ensures Valid(Step(s, e))
  {
  }

  /** Every handler keeps the invariant, however the events are interleaved. */
  lemma {:induction false} RunPreservesValid(s: State, events: seq<Event>)
    requires Valid(s)
    ensures Valid(Run(s, events))
    decreases |events|
  {
    if events != [] {
      StepPreservesValid(s, events[0]);
      RunPreservesValid(Step(s, events[0]), events[1..]);
    }
  }

  lemma StepPreservesCommitted(s: State, e: Event)
    requires Committed(s)
    ensures Committed(Step(s, e))
  {
  }

  lemma {:induction false} RunPreservesCommitted(s: State, events: seq<Event>)
    requires Committed(s)
    ensures Committed(Run(s, events))
    decreases |events|
  {
    if events != [] {
      StepPreservesCommitted(s, events[0]);
      RunPreservesCommitted(Step(s, events[0]), events[1..]);
    }
  }

  /** Every state the component can reach from mount is valid: every stroke has a
      selectable tool and an even number of coordinates, at least two; and whenever no
      drag is pending the canvas shows exactly the newest snapshot. */
  lemma ReachableStatesAreValid(events: seq<Event>)
    ensures Valid(Run(Initial(), events)) && Committed(Run(Initial(), events))
  {
    RunPreservesValid(Initial(), events);
    RunPreservesCommitted(Initial(), events);
  }

  /** Undo with history pops the newest snapshot and draws the new newest one, or nothing
      when none is left: the one-snapshot case is not a special rule but this same rule. */
  lemma UndoPopsLatestSnapshot(s: State)
    requires s.history != []
    ensures Undo(s).history == s.history[..|s.history| - 1]
    ensures Undo(s).lines == Top(Undo(s).history)
  {
  }

  /** Undo takes back a pointer-up from a state with no pending drag, including a
      pointer-up with no drag before it (which therefore adds an undo step that changes
      nothing visible). */
  lemma UndoCancelsPointerUp(s: State)
    requires !s.isDrawing && Committed(s)
    ensures Undo(PointerUp(s)) == s
  {
  }

  /** One pointer-move per point of the path. */
  function Moves(ps: seq<Point>): (events: seq<Event>)
    ensures |events| == |ps|
  {
    if ps == [] then [] else [Move(ps[0])] + Moves(ps[1..])
  }

  /** Dragging along a path appends the path's coordinates to the last stroke, in order,
      and changes nothing else. */
  lemma {:induction false} DragExtendsLastStroke(s: State, ps: seq<Point>)
    requires s.isDrawing && s.lines != []
    ensures
      var n := |s.lines|;
      var last := s.lines[n - 1];
      Run(s, Moves(ps)) == s.(lines := s.lines[..n - 1] + [Stroke(last.tool, last.points + Coordinates(ps))])
    decreases |ps|
  {
    var n := |s.lines|;
    var last := s.lines[n - 1];
    if ps == [] {
      assert last.points + Coordinates(ps) == last.points;
      assert s.lines[..n - 1] + [last] == s.lines;
    } else {
      var evs := Moves(ps);
      assert evs[0] == Move(ps[0]) && evs[1..] == Moves(ps[1..]);
      var s1 := PointerMove(s, ps[0]);
      assert Run(s, evs) == Run(s1, Moves(ps[1..]));
      DragExtendsLastStroke(s1, ps[1..]);
      var last1 := s1.lines[n - 1];
      assert s1.lines[..n - 1] == s.lines[..n - 1];
      assert last1.tool == last.tool;
      assert Coordinates(ps) == [ps[0].x, ps[0].y] + Coordinates(ps[1..]);
      assert last1.points + Coordinates(ps[1..]) == last.points + Coordinates(ps);
    }
  }

  /** Pressing at p and dragging through ps without releasing, from mount, draws one
      pencil stroke through all |ps| + 1 points and records no history. */
  lemma DrawWithoutRelease(p: Point, ps: seq<Point>)
    ensures
      var r := Run(Initial(), [Down(p)] + Moves(ps));
      && r.lines == [Stroke(Pencil, Coordinates([p] + ps))]
      && |r.lines[0].points| == 2 * (|ps| + 1)
      && r.history == []
      && r.isDrawing
  {
    RunAppend(Initial(), [Down(p)], Moves(ps));
    var s1 := PointerDown(Initial(), p);
    assert Run(Initial(), [Down(p)]) == s1;
    DragExtendsLastStroke(s1, ps);
    CoordinatesAppend([p], ps);
  }

  /** From a state with no pending drag, drawing one complete stroke and pressing undo
      gives back exactly that state: undo removes the most recent stroke, and with it
      everything that stroke's release recorded. */
  lemma UndoRevertsLastStroke(s: State, p: Point, ps: seq<Point>)
    requires !s.isDrawing && Committed(s)
    ensures Run(s, [Down(p)] + Moves(ps) + [Up, UndoClick]) == s
  {
    var s1 := PointerDown(s, p);
    assert Run(s, [Down(p)]) == s1;
    RunAppend(s, [Down(p)], Moves(ps));
    DragExtendsLastStroke(s1, ps);
    var s2 := Run(s1, Moves(ps));
    RunAppend(s, [Down(p)] + Moves(ps), [Up, UndoClick]);
    assert Run(s2, [Up, UndoClick]) == Undo(PointerUp(s2));
    var u := PointerUp(s2);
    if |s.history| == 0 {
      assert Undo(u).lines == [] == s.lines;
    } else {
      assert u.history[..|s.history|] == s.history;
      assert Undo(u).history == s.history;
      assert Undo(u).lines == s.history[|s.history| - 1] == s.lines;
    }
  }

  /** How many pointer-ups a sequence of events contains. */
  function Releases(events: seq<Event>): nat {
    if events == [] then 0 else (if events[0].Up? then 1 else 0) + Releases(events[1..])
  }

  /** Neither undo nor clear among the events. */
  predicate NoRewind(events: seq<Event>) {
    forall i :: 0 <= i < |events| ==> !events[i].UndoClick? && !events[i].ClearClick?
  }

  /** Without undo or clear, history only grows, and by exactly one per pointer-up. */
  lemma {:induction false} HistoryCountsReleases(s: State, events: seq<Event>)
    requires NoRewind(events)
    ensures |Run(s, events).history| == |s.history| + Releases(events)
    ensures Run(s, events).history[..|s.history|] == s.history
    decreases |events|
  {
    if events != [] {
      var s1 := Step(s, events[0]);
      assert !events[0].UndoClick? && !events[0].ClearClick?;
      assert NoRewind(events[1..]) by {
        forall i | 0 <= i < |events| - 1 ensures !events[1..][i].UndoClick? && !events[1..][i].ClearClick? {
          assert events[1..][i] == events[i + 1];
        }
      }
      HistoryCountsReleases(s1, events[1..]);
      assert |s1.history| == |s.history| + (if events[0].Up? then 1 else 0);
      assert s1.history[..|s.history|] == s.history;
      var r := Run(s1, events[1..]);
      assert r.history[..|s1.history|] == s1.history;
      assert r.history[..|s.history|] == r.history[..|s1.history|][..|s.history|];
    }
  }

  /** A GIF drop leaves the whole state as it was: no held file, no background, strokes and
      history untouched. */
  lemma GifDropChangesNothing(s: State, name: string)
    ensures FileDrop(s, Some(FileInfo(name, "image/gif"))) == s
  {
  }

  /** Decoding is not cancelled: an image whose decoding finishes after the trash icon
      was clicked still becomes the background while no file is held, and of two drops
      the image whose decoding finishes last is shown, whichever was dropped last. */
  lemma LateDecodeStillShown(s: State, a: FileInfo, b: FileInfo)
    requires IsImageType(a.mimeType) && IsImageType(b.mimeType)
    ensures Run(s, [DeleteClick, ImageLoaded(a)]).file == None
    ensures Run(s, [DeleteClick, ImageLoaded(a)]).background == Some(a)
    ensures
      var r := Run(s, [Drop(Some(a)), Drop(Some(b)), ImageLoaded(b), ImageLoaded(a)]);
      r.file == Some(b) && r.background == Some(a)
  {
    var d := [DeleteClick, ImageLoaded(a)];
    var d1 := DeleteFile(s);
    assert d[0] == DeleteClick && d[1..] == [ImageLoaded(a)];
    assert Run(s, d) == Run(d1, [ImageLoaded(a)]);
    assert Run(d1, [ImageLoaded(a)]) == Run(BackgroundLoaded(d1, a), []);
    var evs := [Drop(Some(a)), Drop(Some(b)), ImageLoaded(b), ImageLoaded(a)];
    var e1 := FileDrop(s, Some(a));
    var e2 := FileDrop(e1, Some(b));
    var e3 := BackgroundLoaded(e2, b);
    assert evs[1..] == [Drop(Some(b)), ImageLoaded(b), ImageLoaded(a)];
    assert Run(s, evs) == Run(e1, evs[1..]);
    assert evs[1..][1..] == [ImageLoaded(b), ImageLoaded(a)];
    assert Run(e1, evs[1..]) == Run(e2, [ImageLoaded(b), ImageLoaded(a)]);
    assert Run(e2, [ImageLoaded(b), ImageLoaded(a)]) == Run(e3, [ImageLoaded(a)]);
    assert Run(e3, [ImageLoaded(a)]) == BackgroundLoaded(e3, a);
  }
}
