/** Drawing tools, the toolbar buttons that choose them, and how a stroke is rendered
    for its tool (src/App.js:169-173 and 209-213). */
module Style {

  const Pencil: string := "pencil"
  const Eraser: string := "eraser"

  /** The two values the toolbar ever stores as the current tool. */
  predicate IsTool(name: string) {
    name == Pencil || name == Eraser
  }

  /** The two tool buttons of the toolbar. */
  datatype ToolButton = PencilButton | EraserButton

  /** The tool name a button click stores. */
  function ToolName(b: ToolButton): (name: string)
    ensures IsTool(name)
    ensures name == Eraser <==> b == EraserButton
  {
    match b
    case PencilButton => Pencil
    case EraserButton => Eraser
  }

  /** What the renderer hands the line shape: stroke colour, stroke width and the
      canvas composite operation. */
  datatype LineStyle = LineStyle(color: string, width: nat, composite: string)

  const DestinationOut: string := "destination-out"
  const SourceOver: string := "source-over"

  /** The eraser draws wide and removes pixels; every other tool name, whatever it is,
      gets the thin black pencil line. */
  function StyleFor(tool: string): (s: LineStyle)
    ensures s.composite == DestinationOut <==> tool == Eraser
    ensures s.width == 20 <==> tool == Eraser
    ensures tool != Eraser ==> s == LineStyle("#000000", 5, SourceOver)
    ensures tool == Eraser ==> s == LineStyle("#ffffff", 20, DestinationOut)
  {
    if tool == Eraser then LineStyle("#ffffff", 20, DestinationOut)
    else LineStyle("#000000", 5, SourceOver)
  }

  /** Reads the tool back off a rendered style: only the eraser erases. */
  function ToolOf(s: LineStyle): string {
    if s.composite == DestinationOut then Eraser else Pencil
  }

  /** On the tools the toolbar can select, the style determines the tool. */
  lemma StyleIdentifiesTool(tool: string)
    requires IsTool(tool)
    ensures ToolOf(StyleFor(tool)) == tool
  {
  }

  /** Two tool names get the same style exactly when both or neither are the eraser. */
  lemma SameStyleIffSameEraserness(a: string, b: string)
    ensures StyleFor(a) == StyleFor(b) <==> (a == Eraser <==> b == Eraser)
  {
  }
}
