/** The App component (src/App.js:5-141) as an object: its state variables and refs are
    fields, and each event handler is a method that updates them in place. Each method is
    proved to move the fields exactly as the matching transition of module Canvas does. */
module Component {
  import opened Wrappers
  import opened Style
  import opened Strokes
  import opened Upload
  import Canvas

  class App {
    var tool: string
    var lines: seq<Stroke>
    var history: seq<seq<Stroke>>
    var isDrawing: bool
    var file: Option<FileInfo>
    var background: Option<FileInfo>

    /** The fields as a value of the specification's state. */
    function Snapshot(): Canvas.State
      reads this
    {
      Canvas.State(tool, lines, history, isDrawing, file, background)
    }

    ghost predicate Valid()
      reads this
    {
      Canvas.Valid(Snapshot())
    }

    /** Mount: the pencil, no strokes, no history, no file, no background. */
    constructor ()
      ensures Valid() && Snapshot() == Canvas.Initial()
    {
      tool := Pencil;
      lines := [];
      history := [];
      isDrawing := false;
      file := None;
      background := None;
    }

    method HandleMouseDown(p: Point)
      requires Valid()
      modifies this
      ensures Valid() && Snapshot() == Canvas.PointerDown(old(Snapshot()), p)
    {
      isDrawing := true;
      lines := lines + [Stroke(tool, [p.x, p.y])];
    }

    /** Returns whether the handler threw (a pending drag with no stroke to extend). */
    method HandleMouseMove(p: Point) returns (threw: bool)
      requires Valid()
      modifies this
      ensures threw <==> Canvas.MoveThrows(old(Snapshot()))
      ensures Valid() && Snapshot() == Canvas.PointerMove(old(Snapshot()), p)
    {
      if !isDrawing {
        return false;
      }
      if |lines| == 0 {
        return true;
      }
      var lastLine := lines[|lines| - 1];
      lastLine := lastLine.(points := lastLine.points + [p.x, p.y]);
      lines := lines[..|lines| - 1] + [lastLine];
      threw := false;
    }

    method HandleMouseUp()
      requires Valid()
      modifies this
      ensures Valid() && Snapshot() == Canvas.PointerUp(old(Snapshot()))
    {
      isDrawing := false;
      history := history + [lines];
    }

    method UndoLastLine()
      requires Valid()
      modifies this
      ensures Valid() && Snapshot() == Canvas.Undo(old(Snapshot()))
    {
      if |history| == 0 {
        return;
      }
      if |history| == 1 {
        lines := [];
        history := [];
      } else {
        var previousLines := history[|history| - 2];
        lines := previousLines;
        history := history[..|history| - 1];
      }
    }

    method ClearCanvas()
      requires Valid()
      modifies this
      ensures Valid() && Snapshot() == Canvas.Clear(old(Snapshot()))
    {
      lines := [];
      history := [];
    }

    method HandleToolButton(b: ToolButton)
      requires Valid()
      modifies this
      ensures Valid() && Snapshot() == Canvas.SelectTool(old(Snapshot()), b)
    {
      match b
      case PencilButton => tool := Pencil;
      case EraserButton => tool := Eraser;
    }

    /** `dropped` is the first file of the drop, if there is one. */
    method HandleFileDrop(dropped: Option<FileInfo>)
      requires Valid()
      modifies this
      ensures Valid() && Snapshot() == Canvas.FileDrop(old(Snapshot()), dropped)
    {
      if Accepts(dropped) {
        file := dropped;
      }
    }

    method HandleDeleteFile()
      requires Valid()
      modifies this
      ensures Valid() && Snapshot() == Canvas.DeleteFile(old(Snapshot()))
    {
      file := None;
      background := None;
    }

    /** The decoded image's load callback. */
    method ImageLoaded(f: FileInfo)
      requires Valid()
      modifies this
      ensures Valid() && Snapshot() == Canvas.BackgroundLoaded(old(Snapshot()), f)
    {
      background := Some(f);
    }
  }

  /** Two complete strokes from mount, then undo: the canvas shows the first stroke only,
      and history holds that one snapshot. */
  method TwoStrokesThenUndo(p: Point, q: Point) returns (lines: seq<Stroke>, history: seq<seq<Stroke>>)
    ensures lines == [Stroke(Pencil, [p.x, p.y])]
    ensures history == [lines]
  {
    var app := new App();
    app.HandleMouseDown(p);
    app.HandleMouseUp();
    app.HandleMouseDown(q);
    app.HandleMouseUp();
    app.UndoLastLine();
    lines, history := app.lines, app.history;
  }

  /** One complete stroke from mount, then undo: nothing is left, however many points the
      stroke had. */
  method OneStrokeThenUndo(p: Point, q: Point) returns (lines: seq<Stroke>, history: seq<seq<Stroke>>)
    ensures lines == [] && history == []
  {
    var app := new App();
    app.HandleMouseDown(p);
    var threw := app.HandleMouseMove(q);
    assert !threw;
    app.HandleMouseUp();
    app.UndoLastLine();
    lines, history := app.lines, app.history;
  }
}
