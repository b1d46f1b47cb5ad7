/**
 * What the engine reads from the browser. A DOM node and a frame are bare
 * identities; everything the styling engine reports about a node at the
 * moment of a read is a NodeView.
 */
module Dom {
  import opened Values

  /** A native document node; only its identity matters to the engine. */
  class DomNode {
    constructor () {}
  }

  /** The frame (window) an element lives in. */
  class QFrame {
    constructor () {}
  }

  /** getBoundingClientRect(): the border box in viewport coordinates. */
  datatype BoundingRect = BoundingRect(top: real, left: real, width: real, height: real)

  datatype Scroll = Scroll(x: real, y: real)

  /**
   * The styling engine's answers for one node:
   * computed  - property values getComputedStyle reports (absent names are not reported),
   * inlineClip - the node's assigned `style.clip`,
   * offsetWidth / offsetHeight - the border-box size in whole pixels,
   * bounds - the bounding client rectangle, scroll - the frame's scroll offset,
   * hasParent - whether the node has a parent node,
   * probeWidth - the rendered width of a probe span styled `width: 100<unit>` inside the node.
   */
  datatype NodeView = NodeView(
    computed: map<string, string>,
    inlineClip: string,
    offsetWidth: int,
    offsetHeight: int,
    bounds: BoundingRect,
    scroll: Scroll,
    hasParent: bool,
    probeWidth: string -> real)

  /** The styling engine: the current view of any node. */
  datatype StylingEngine = StylingEngine(read: DomNode -> NodeView)

  /** What a descriptor keeps of its element: the node, its frame and its nickname. */
  datatype ElementRef = ElementRef(node: DomNode, frame: QFrame, nickname: string)
  {
    /** The element's label in messages: its nickname in single quotes. */
    function ToString(): (s: string)
      ensures |s| == |nickname| + 2 && s[0] == '\'' && s[|s| - 1] == '\''
      ensures s[1..|s| - 1] == nickname
    {
      "'" + nickname + "'"
    }
  }

  /**
   * Stand-in for the raw element edge: the bounding-box edge in page
   * coordinates (viewport edge plus the frame's scroll offset).
   */
  function RawEdge(view: NodeView, side: Side): real
  {
    match side
    case Top => view.bounds.top + view.scroll.y
    case Bottom => view.bounds.top + view.bounds.height + view.scroll.y
    case Left => view.bounds.left + view.scroll.x
    case Right => view.bounds.left + view.bounds.width + view.scroll.x
  }
}
