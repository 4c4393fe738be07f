# Konva drawing app: a verified model of the drawing state

The application is one React component (`src/App.js`). It lets a user draw freehand
strokes with a pencil or an eraser over an optional background image, undo strokes and
clear the canvas. This project models that component's state and its event handlers:

- the current **tool** (`"pencil"` or `"eraser"`);
- **lines**, a list of strokes, each holding a tool name and a flat coordinate list
  `[x0, y0, x1, y1, ...]`;
- **history**, a list of snapshots of `lines`, with one snapshot pushed per pointer-up;
- the **isDrawing** flag that pointer-down raises and pointer-up lowers;
- the dropped **file** and the decoded **background** image.

Modules:

- `Style` (`style.dfy`): tool names, the two tool buttons, and the pure mapping from a tool
  to its line style (colour, width, composite operation).
- `Upload` (`upload.dfy`): the dropped file and the MIME test (exactly `image/jpeg` or
  `image/png`).
- `Strokes` (`strokes.dfy`): points, strokes, flat coordinates, and stroke well-formedness.
- `Canvas` (`canvas.dfy`): the state as a value, with one transition function per handler.
  These functions are the specification. The lemmas here are about sequences of events:
  - reachable states stay valid;
  - a drag records its path in order;
  - undo takes back exactly the last completed stroke;
  - history grows by one per pointer-up.
- `Component` (`component.dfy`): class `App`, with the component's state as fields and one
  method per handler. Each method is proved to change the fields exactly as the matching
  `Canvas` transition does.

Pointer coordinates are integers. Every handler is one atomic sequential update. Two inputs
are passed in as parameters:

- the pointer position, which the source reads from the stage;
- the first file of a drop, if the drop has one.

Decoding the background image is asynchronous in the source. The model treats its
completion as an event of its own (`ImageLoaded`).

The undo rule looks asymmetric: with one snapshot, undo empties everything; with more, it
restores the second newest snapshot. `Canvas.UndoPopsLatestSnapshot` shows that both cases
are one uniform rule: pop the newest snapshot, then draw the new newest one, or nothing if
none is left. `Canvas.UndoRevertsLastStroke` then shows that undo after a completed stroke
restores the exact state from before that stroke. This holds whenever no drag is pending,
including the one-snapshot case.

Two behaviours of the code are worth noting:

- pointer-down starts a stroke as the two numbers `[x, y]` (src/App.js:100);
- pointer-up pushes a snapshot even when no drag was pending (src/App.js:116-119; see
  `Canvas.UndoCancelsPointerUp`).

## Model

| member | source | states |
|---|---|---|
| Style.ToolName | src/App.js:169-173 | a tool button stores `"pencil"` or `"eraser"`, and stores `"eraser"` exactly for the eraser button |
| Style.StyleFor | src/App.js:209-213 | only the eraser gets the `destination-out` composite (it removes pixels) and width 20, with colour `#ffffff`; every other tool name gets `#000000`, width 5, `source-over` |
| Style.StyleIdentifiesTool | src/App.js:209-213 | for the two selectable tools, the tool can be read back from the style (round trip through `ToolOf`) |
| Style.SameStyleIffSameEraserness | src/App.js:209-213 | two tool names render alike exactly when both are the eraser or neither is |
| Upload.Accepts | src/App.js:66-69 | a drop is accepted only if it carries a file, and then exactly when its MIME type is `image/jpeg` or `image/png` |
| Upload.OnlyExactTypesAccepted | src/App.js:69 | `image/gif`, `image/jpg` and `image/PNG` are refused and `image/png` is accepted: the comparison is exact |
| Strokes.Coordinates | src/App.js:100-110 | the flat list has two entries per point, and entries 2i and 2i+1 are point i's x and y |
| Strokes.CoordinatesAppend | src/App.js:110 | the coordinates of a concatenated path are the two coordinate lists concatenated |
| Strokes.Started | src/App.js:100 | a new stroke has the current tool and exactly the pressed point, so it is well-formed |
| Strokes.Extended | src/App.js:110 | extending a stroke keeps its tool and its earlier points, adds exactly the new point's two coordinates, and keeps it well-formed |
| Strokes.ReplaceLast | src/App.js:112 | `splice(length - 1, 1, s)` keeps the length and every earlier stroke, and puts `s` last |
| Canvas.Initial | src/App.js:8-17 | on mount: the pencil, no strokes, no history, not drawing, no file, no background; valid and committed |
| Canvas.PointerDown | src/App.js:97-101 | raises the flag and appends exactly one stroke (current tool, points `[x, y]`); earlier strokes, history, tool, file and background are unchanged; preserves validity |
| Canvas.PointerMove | src/App.js:103-114 | without a pending drag, nothing changes; with one, the last stroke gains exactly `[x, y]` and keeps its tool, the stroke count and the other strokes are kept, and only `lines` changes; with no stroke it is a no-op (the source throws); preserves validity |
| Canvas.PointerUp | src/App.js:116-119 | lowers the flag; history grows by exactly one, keeps its old entries as a prefix, and its last entry equals the current strokes; nothing else changes |
| Canvas.Undo | src/App.js:122-134 | no history: no change; one snapshot: no strokes and no history; two or more: draw the second newest snapshot and drop the newest; only `lines` and `history` change |
| Canvas.Clear | src/App.js:137-141 | no strokes and no history from any state; tool, flag, file and background are untouched |
| Canvas.SelectTool | src/App.js:169-173 | sets the tool to a selectable name, the eraser exactly for the eraser button, and changes nothing else |
| Canvas.FileDrop | src/App.js:62-74 | an accepted drop becomes the held file; a refused one leaves the whole state unchanged; strokes and history are never touched |
| Canvas.DeleteFile | src/App.js:76-79 | no file and no background; nothing else changes |
| Canvas.BackgroundLoaded | src/App.js:25-29 | the decoded image becomes the background; nothing else changes |
| Canvas.StepPreservesValid | src/App.js:62-141 | any single event keeps the tool selectable, every stroke and every snapshot well-formed, and the held file an image |
| Canvas.RunPreservesValid | src/App.js:62-141 | the same for any sequence of events |
| Canvas.StepPreservesCommitted | src/App.js:97-141 | any single event keeps "no pending drag implies the canvas shows the newest snapshot" |
| Canvas.RunPreservesCommitted | src/App.js:97-141 | the same for any sequence of events |
| Canvas.ReachableStatesAreValid | src/App.js:8-141 | every state reachable from mount is valid and committed, so every stroke's points have even length, at least 2 |
| Canvas.UndoPopsLatestSnapshot | src/App.js:122-132 | with any history, undo pops the newest snapshot and draws the new newest one (or nothing): one rule, not two |
| Canvas.UndoCancelsPointerUp | src/App.js:116-132 | with no pending drag, undo after a pointer-up gives back the state before it; a stray pointer-up therefore adds an undo step that changes nothing visible |
| Canvas.DragExtendsLastStroke | src/App.js:103-114 | a drag along a path appends the path's coordinates to the last stroke in order, and changes nothing else |
| Canvas.DrawWithoutRelease | src/App.js:97-114 | from mount, a press and n moves without release give one pencil stroke through all n + 1 points and no history |
| Canvas.UndoRevertsLastStroke | src/App.js:97-132 | with no pending drag, a press, any drag, a release and an undo return exactly the starting state |
| Canvas.HistoryCountsReleases | src/App.js:116-119 | without undo or clear, history only grows, by exactly one per pointer-up |
| Canvas.GifDropChangesNothing | src/App.js:66-73 | dropping a GIF changes nothing at all |
| Canvas.LateDecodeStillShown | src/App.js:20-34 | the background is never tied to the held file: after delete, a late decode is still shown; of two drops, the decode that finishes last wins |
| Component.App.constructor | src/App.js:8-17 | the fields start as the mount state |
| Component.App.HandleMouseDown | src/App.js:97-101 | updates the fields exactly as `Canvas.PointerDown` and keeps the object valid |
| Component.App.HandleMouseMove | src/App.js:103-114 | updates the fields exactly as `Canvas.PointerMove`; reports a throw exactly when a drag is pending with no stroke |
| Component.App.HandleMouseUp | src/App.js:116-119 | updates the fields exactly as `Canvas.PointerUp` |
| Component.App.UndoLastLine | src/App.js:122-134 | updates the fields exactly as `Canvas.Undo` |
| Component.App.ClearCanvas | src/App.js:137-141 | updates the fields exactly as `Canvas.Clear` |
| Component.App.HandleToolButton | src/App.js:169-173 | updates the fields exactly as `Canvas.SelectTool` |
| Component.App.HandleFileDrop | src/App.js:62-74 | updates the fields exactly as `Canvas.FileDrop` |
| Component.App.HandleDeleteFile | src/App.js:76-79 | updates the fields exactly as `Canvas.DeleteFile` |
| Component.App.ImageLoaded | src/App.js:27-29 | updates the fields exactly as `Canvas.BackgroundLoaded` |
| Component.TwoStrokesThenUndo | src/App.js:97-132 | from mount, two completed strokes and one undo leave just the first stroke, with history holding exactly that snapshot |
| Component.OneStrokeThenUndo | src/App.js:97-132 | from mount, one completed stroke and one undo leave no strokes and no history |

## Left out

- Rendering (the JSX, the `Stage`/`Layer`/`Line`/`KonvaImage` shapes, `batchDraw`): library calls. Only the style each stroke is drawn with is modelled.
- Reading and decoding the dropped file (`FileReader`, `Image`): browser I/O. The model has only the completion event `ImageLoaded`, which may come at any time and in any order.
- The resize listener and stage size, the drag-over/drag-leave `isDragging` flag and `preventDefault`: UI plumbing with no effect on the drawing state.
- The refusal `alert`: modelled only as the state staying unchanged.
- The commented-out duplicate drop handler and the unused `canvasRef`/`fabricCanvas` refs: dead code.
- React's batched and stale-closure state updates: each handler is one atomic update of the current state.
- Floating-point pointer coordinates: integers stand in for them.
- Snapshot aliasing: the model keeps snapshots as values. In the source, a snapshot holds the `lines` array itself. Normally this cannot be observed, because pointer-down always builds a fresh array and a fresh stroke before any move mutates them. It can be observed when a drag pending from a press whose release was never seen (outside the stage) is followed by an undo and then a move: the move then mutates, in place, the stroke and the array of a snapshot still in history. The model does not capture this.
- Component.App.HandleMouseMove: the thrown `TypeError` is modelled as a returned flag with the state unchanged; React's error reporting is not modelled.
