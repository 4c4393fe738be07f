/** Strokes as the component stores them: a tool name and a flat list of coordinates
    `[x0, y0, x1, y1, ...]` (src/App.js:9, 100, 110). */
module Strokes {
  import opened Style

  /** A pointer position on the stage. The browser reports fractional pixels; the model
      uses integers. */
  datatype Point = Point(x: int, y: int)

  datatype Stroke = Stroke(tool: string, points: seq<int>)

  /** The flat coordinate list of a pointer path, two entries per point, in order. */
  function Coordinates(ps: seq<Point>): (r: seq<int>)
    ensures |r| == 2 * |ps|
    ensures forall i :: 0 <= i < |ps| ==> r[2 * i] == ps[i].x && r[2 * i + 1] == ps[i].y
  {
    if ps == [] then []
    else
      var rest := Coordinates(ps[1..]);
      assert forall i :: 1 <= i < |ps| ==> ps[i] == ps[1..][i - 1];
      [ps[0].x, ps[0].y] + rest
  }

  /** The coordinates of a concatenated path are the concatenated coordinates. */
  lemma {:induction false} CoordinatesAppend(a: seq<Point>, b: seq<Point>)
    ensures Coordinates(a + b) == Coordinates(a) + Coordinates(b)
  {
    if a == [] {
      assert a + b == b;
    } else {
      assert (a + b)[1..] == a[1..] + b;
      CoordinatesAppend(a[1..], b);
    }
  }

  /** A stroke the toolbar and the pointer handlers can produce: a selectable tool and at
      least one whole point, never half of one. */
  predicate WellFormed(st: Stroke) {
    IsTool(st.tool) && |st.points| >= 2 && |st.points| % 2 == 0
  }

  predicate AllWellFormed(lines: seq<Stroke>) {
    forall i :: 0 <= i < |lines| ==> WellFormed(lines[i])
  }

  predicate AllSnapshotsWellFormed(history: seq<seq<Stroke>>) {
    forall i :: 0 <= i < |history| ==> AllWellFormed(history[i])
  }

  /** The newest snapshot, or no strokes at all when there is none. */
  function Top(history: seq<seq<Stroke>>): seq<Stroke> {
    if history == [] then [] else history[|history| - 1]
  }

  /** The stroke a pointer-down starts: the current tool and the one point pressed. */
  function Started(tool: string, p: Point): (st: Stroke)
    ensures st.tool == tool && st.points == Coordinates([p])
    ensures IsTool(tool) ==> WellFormed(st)
  {
    Stroke(tool, [p.x, p.y])
  }

  /** A stroke with one more point at its end; its tool is kept. */
  function Extended(st: Stroke, p: Point): (r: Stroke)
    ensures r.tool == st.tool
    ensures |r.points| == |st.points| + 2
    ensures r.points[..|st.points|] == st.points && r.points[|st.points|..] == Coordinates([p])
    ensures WellFormed(st) ==> WellFormed(r)
  {
    Stroke(st.tool, st.points + [p.x, p.y])
  }

  /** The stroke list with its last element replaced, as `splice(length - 1, 1, s)` does. */
  function ReplaceLast(lines: seq<Stroke>, st: Stroke): (r: seq<Stroke>)
    requires lines != []
    ensures |r| == |lines|
    ensures forall i :: 0 <= i < |lines| - 1 ==> r[i] == lines[i]
    ensures r[|lines| - 1] == st
    ensures AllWellFormed(lines) && WellFormed(st) ==> AllWellFormed(r)
  {
    lines[..|lines| - 1] + [st]
  }
}
