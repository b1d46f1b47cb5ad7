/**
 * The clip normaliser of src/normalize/clip_style.js: the element's `clip`
 * style, as the styling engine reports it, turned into a rectangle in CSS
 * pixels relative to the top-left corner of the element's bounding box, or
 * None when no clip applies.
 *
 * The four per-edge resolvers and the rect resolution are shared with the
 * earlier revision in src/normalize/clip-style.js (module ClipStyleV1),
 * whose copies of them are identical.
 */
module ClipStyle {
  import opened Outcome
  import opened Text
  import opened Dom
  import opened StyleUtil
  import opened ClipRectPattern

  /** The normalised clip rectangle: edges in pixels from the bounding box's top-left corner, and its size. */
  datatype ClipRect = ClipRect(top: real, right: real, bottom: real, left: real, width: real, height: real)

  /** A clip rectangle's size is always the distance between its opposite edges. */
  ghost predicate Consistent(r: ClipRect)
  {
    r.width == r.right - r.left && r.height == r.bottom - r.top
  }

  /** "auto" for the top edge clips at the border box's top: offset 0. */
  function ComputeClipTopPxHeight(view: NodeView, lengthExpr: string): (r: Result<real>)
    ensures lengthExpr == "auto" ==> r == Ok(0.0)
    ensures lengthExpr != "auto" ==> r == ComputeCssPxForLengthInElement(Some(view), lengthExpr)
  {
    if lengthExpr == "auto" then Ok(0.0) else ComputeCssPxForLengthInElement(Some(view), lengthExpr)
  }

  /** "auto" for the right edge clips at the border box's right: offset offsetWidth. */
  function ComputeClipRightPxWidth(view: NodeView, lengthExpr: string): (r: Result<real>)
    ensures lengthExpr == "auto" ==> r == Ok(view.offsetWidth as real)
    ensures lengthExpr != "auto" ==> r == ComputeCssPxForLengthInElement(Some(view), lengthExpr)
  {
    if lengthExpr == "auto" then Ok(view.offsetWidth as real) else ComputeCssPxForLengthInElement(Some(view), lengthExpr)
  }

  /** "auto" for the bottom edge clips at the border box's bottom: offset offsetHeight. */
  function ComputeClipBottomPxHeight(view: NodeView, lengthExpr: string): (r: Result<real>)
    ensures lengthExpr == "auto" ==> r == Ok(view.offsetHeight as real)
    ensures lengthExpr != "auto" ==> r == ComputeCssPxForLengthInElement(Some(view), lengthExpr)
  {
    if lengthExpr == "auto" then Ok(view.offsetHeight as real) else ComputeCssPxForLengthInElement(Some(view), lengthExpr)
  }

  /** "auto" for the left edge clips at the border box's left: offset 0. */
  function ComputeClipLeftPxWidth(view: NodeView, lengthExpr: string): (r: Result<real>)
    ensures lengthExpr == "auto" ==> r == Ok(0.0)
    ensures lengthExpr != "auto" ==> r == ComputeCssPxForLengthInElement(Some(view), lengthExpr)
  {
    if lengthExpr == "auto" then Ok(0.0) else ComputeCssPxForLengthInElement(Some(view), lengthExpr)
  }

  /**
   * A clip style taken apart by CLIP_RECT_PATTERN and its components
   * resolved. A style the pattern does not match is an unknown clip style.
   */
  function ResolveRect(view: NodeView, style: string, commaInLast: bool): (r: Result<ClipRect>)
    ensures MatchClipRect(style, commaInLast).None? <==> r == Err(UnknownClipStyle(style))
    ensures r.Ok? ==> Consistent(r.value)
  {
    match MatchClipRect(style, commaInLast)
    case None => Err(UnknownClipStyle(style))
    case Some(c) => ResolveComponents(view, c)
  }

  /**
   * The four captured components resolved in the order top, right, bottom,
   * left; the first failure is the result.
   */
  function ResolveComponents(view: NodeView, c: Components): (r: Result<ClipRect>)
    ensures r.Ok? ==> Consistent(r.value)
    ensures r.Err? ==> r.error.LengthExpected? || r.error.NotANumber?
  {
    Assemble(ComputeClipTopPxHeight(view, c.top), ComputeClipRightPxWidth(view, c.right),
             ComputeClipBottomPxHeight(view, c.bottom), ComputeClipLeftPxWidth(view, c.left))
  }

  /** The rectangle of four resolved offsets, or the first failure among them. */
  function Assemble(top: Result<real>, right: Result<real>, bottom: Result<real>, left: Result<real>): (r: Result<ClipRect>)
    ensures r.Ok? <==> top.Ok? && right.Ok? && bottom.Ok? && left.Ok?
    ensures r.Ok? ==> r.value == ClipRect(top.value, right.value, bottom.value, left.value,
                                          right.value - left.value, bottom.value - top.value)
    ensures r.Ok? ==> Consistent(r.value)
    ensures top.Err? ==> r == Err(top.error)
    ensures top.Ok? && right.Err? ==> r == Err(right.error)
    ensures top.Ok? && right.Ok? && bottom.Err? ==> r == Err(bottom.error)
    ensures top.Ok? && right.Ok? && bottom.Ok? && left.Err? ==> r == Err(left.error)
  {
    if top.Err? then Err(top.error)
    else if right.Err? then Err(right.error)
    else if bottom.Err? then Err(bottom.error)
    else if left.Err? then Err(left.error)
    else Ok(ClipRect(top.value, right.value, bottom.value, left.value,
                     right.value - left.value, bottom.value - top.value))
  }

  /** A rect written with every component "auto" clips exactly at the border box. */
  lemma ResolveAllAuto(view: NodeView, sep: string, commaInLast: bool)
    requires IsSeparatorRun(sep)
    ensures var w := view.offsetWidth as real;
            var h := view.offsetHeight as real;
            ResolveRect(view, Written(Components("auto", "auto", "auto", "auto"), sep), commaInLast)
              == Ok(ClipRect(0.0, w, h, 0.0, w, h))
  {
    var c := Components("auto", "auto", "auto", "auto");
    assert ResolveRect(view, Written(c, sep), commaInLast) == ResolveComponents(view, c) by {
      AutoIsToken();
      MatchWritten(c, sep, commaInLast);
    }
    var w := view.offsetWidth as real;
    var h := view.offsetHeight as real;
    ResolveMatched(view, c, 0.0, w, h, 0.0);
  }

  lemma AutoIsToken()
    ensures IsToken("auto")
  {
    assert forall k :: 0 <= k < 4 ==> "auto"[k] in "auto";
  }

  /**
   * A rect written from four length tokens resolves to the rectangle of
   * their lengths, whichever separators are used between them.
   */
  lemma ResolveLengths(view: NodeView, c: Components, sep: string, commaInLast: bool,
                       top: real, right: real, bottom: real, left: real)
    requires IsToken(c.top) && IsToken(c.right) && IsToken(c.bottom) && IsToken(c.left)
    requires IsSeparatorRun(sep)
    requires c.top != "auto" && ComputeCssPxForLengthInElement(Some(view), c.top) == Ok(top)
    requires c.right != "auto" && ComputeCssPxForLengthInElement(Some(view), c.right) == Ok(right)
    requires c.bottom != "auto" && ComputeCssPxForLengthInElement(Some(view), c.bottom) == Ok(bottom)
    requires c.left != "auto" && ComputeCssPxForLengthInElement(Some(view), c.left) == Ok(left)
    ensures ResolveRect(view, Written(c, sep), commaInLast) == Ok(ClipRect(top, right, bottom, left, right - left, bottom - top))
  {
    assert ResolveRect(view, Written(c, sep), commaInLast) == ResolveComponents(view, c) by {
      MatchWritten(c, sep, commaInLast);
    }
    ResolveMatched(view, c, top, right, bottom, left);
  }

  /** A matched style whose four components resolve is the rectangle of those offsets. */
  lemma ResolveMatched(view: NodeView, c: Components, top: real, right: real, bottom: real, left: real)
    requires ComputeClipTopPxHeight(view, c.top) == Ok(top)
    requires ComputeClipRightPxWidth(view, c.right) == Ok(right)
    requires ComputeClipBottomPxHeight(view, c.bottom) == Ok(bottom)
    requires ComputeClipLeftPxWidth(view, c.left) == Ok(left)
    ensures ResolveComponents(view, c) == Ok(ClipRect(top, right, bottom, left, right - left, bottom - top))
  {
    AssembleResolved(ComputeClipTopPxHeight(view, c.top), ComputeClipRightPxWidth(view, c.right),
                     ComputeClipBottomPxHeight(view, c.bottom), ComputeClipLeftPxWidth(view, c.left),
                     top, right, bottom, left);
  }

  lemma AssembleResolved(t: Result<real>, r: Result<real>, b: Result<real>, l: Result<real>,
                         top: real, right: real, bottom: real, left: real)
    requires t == Ok(top) && r == Ok(right) && b == Ok(bottom) && l == Ok(left)
    ensures Assemble(t, r, b, l) == Ok(ClipRect(top, right, bottom, left, right - left, bottom - top))
  {
  }

  /** The values of "" and "auto" mean that no clip is set. */
  const UnsetClipStyles: seq<string> := ["", "auto"]

  /** The four IE8 `clip-*` components, in the pattern's order. */
  function LegacyComponents(view: NodeView): Components
  {
    Components(GetRawCssStyle(view, "clip-top"), GetRawCssStyle(view, "clip-right"),
               GetRawCssStyle(view, "clip-bottom"), GetRawCssStyle(view, "clip-left"))
  }

  predicate AllSet(c: Components)
  {
    c.top != "" && c.right != "" && c.bottom != "" && c.left != ""
  }

  predicate AllAuto(c: Components)
  {
    c.top == "auto" && c.right == "auto" && c.bottom == "auto" && c.left == "auto"
  }

  /**
   * The IE8 fallback for an empty computed clip: a rect expression built
   * from the four `clip-*` components when all of them are set, "" otherwise.
   */
  function LegacyClipStyle(view: NodeView): (style: string)
    ensures AllSet(LegacyComponents(view)) ==> style == Written(LegacyComponents(view), " ")
    ensures !AllSet(LegacyComponents(view)) ==> style == ""
  {
    var c := LegacyComponents(view);
    if AllSet(c) then Written(c, " ") else ""
  }

  /** The clip applies only to absolutely or fixed positioned elements. */
  predicate ClipApplies(view: NodeView)
  {
    GetRawCssStyle(view, "position") == "absolute" || GetRawCssStyle(view, "position") == "fixed"
  }

  /**
   * normalize: the clip rectangle of the element, None when clip does not
   * apply or is not set, an error for a style the pattern cannot read or a
   * component that is not a length.
   */
  function Normalize(view: NodeView): (r: Result<Option<ClipRect>>)
    ensures !ClipApplies(view) ==> r == Ok(None)
    ensures GetRawCssStyle(view, "clip") == "auto" ==> r == Ok(None)
    ensures r.Ok? && r.value.Some? ==> Consistent(r.value.value)
    ensures ClipApplies(view) && GetRawCssStyle(view, "clip") !in UnsetClipStyles ==>
              r == MapSome(ResolveRect(view, GetRawCssStyle(view, "clip"), true))
  {
    if !ClipApplies(view) then Ok(None)
    else
      var computed := GetRawCssStyle(view, "clip");
      if computed == "auto" then Ok(None)
      else if computed == "" && view.inlineClip == "" && AllAuto(LegacyComponents(view)) then Ok(None)
      else
        var style := if computed == "" then LegacyClipStyle(view) else computed;
        if style in UnsetClipStyles then Ok(None)
        else MapSome(ResolveRect(view, style, true))
  }

  /** A resolved rectangle as a present clip. */
  function MapSome(r: Result<ClipRect>): (s: Result<Option<ClipRect>>)
    ensures r.Err? <==> s.Err?
    ensures r.Err? ==> s.error == r.error
    ensures r.Ok? ==> s.value == Some(r.value)
  {
    match r
    case Err(e) => Err(e)
    case Ok(rect) => Ok(Some(rect))
  }

  /** A positioned element whose clip is all "auto" is clipped at its border box (clip style set to all auto). */
  lemma NormalizeAllAuto(view: NodeView, sep: string)
    requires ClipApplies(view) && IsSeparatorRun(sep)
    requires GetRawCssStyle(view, "clip") == Written(Components("auto", "auto", "auto", "auto"), sep)
    ensures var w := view.offsetWidth as real;
            var h := view.offsetHeight as real;
            Normalize(view) == Ok(Some(ClipRect(0.0, w, h, 0.0, w, h)))
  {
    var style := Written(Components("auto", "auto", "auto", "auto"), sep);
    assert style[0] == 'r';
    ResolveAllAuto(view, sep, true);
    assert Normalize(view) == MapSome(ResolveRect(view, style, true));
  }

  /**
   * A positioned element's clip written in lengths is read as written, edges
   * outside the box included (clip style set to some outside, some inside).
   */
  lemma NormalizeLengths(view: NodeView, c: Components, sep: string, top: real, right: real, bottom: real, left: real)
    requires ClipApplies(view) && GetRawCssStyle(view, "clip") == Written(c, sep)
    requires IsToken(c.top) && IsToken(c.right) && IsToken(c.bottom) && IsToken(c.left)
    requires IsSeparatorRun(sep)
    requires c.top != "auto" && ComputeCssPxForLengthInElement(Some(view), c.top) == Ok(top)
    requires c.right != "auto" && ComputeCssPxForLengthInElement(Some(view), c.right) == Ok(right)
    requires c.bottom != "auto" && ComputeCssPxForLengthInElement(Some(view), c.bottom) == Ok(bottom)
    requires c.left != "auto" && ComputeCssPxForLengthInElement(Some(view), c.left) == Ok(left)
    ensures Normalize(view) == Ok(Some(ClipRect(top, right, bottom, left, right - left, bottom - top)))
  {
    assert Written(c, sep)[0] == 'r';
    ResolveLengths(view, c, sep, true, top, right, bottom, left);
  }

  /**
   * IE8: an empty computed and assigned clip whose four components are all
   * "auto" is not set at all.
   */
  lemma LegacyAllAutoIsUnset(view: NodeView)
    requires GetRawCssStyle(view, "clip") == "" && view.inlineClip == ""
    requires AllAuto(LegacyComponents(view))
    ensures Normalize(view) == Ok(None)
  {
  }

  /**
   * IE8: otherwise an empty computed clip is read from the four components,
   * written out as a rect with single spaces; with a component missing it
   * stays unset.
   */
  lemma LegacyRebuilt(view: NodeView)
    requires ClipApplies(view) && GetRawCssStyle(view, "clip") == ""
    requires view.inlineClip != "" || !AllAuto(LegacyComponents(view))
    ensures AllSet(LegacyComponents(view)) ==>
              Normalize(view) == MapSome(ResolveRect(view, Written(LegacyComponents(view), " "), true))
    ensures !AllSet(LegacyComponents(view)) ==> Normalize(view) == Ok(None)
  {
    if AllSet(LegacyComponents(view)) {
      assert Written(LegacyComponents(view), " ")[0] == 'r';
    }
  }

  /** A set clip style the pattern cannot read is reported as unknown. */
  lemma UnknownStyleFails(view: NodeView)
    requires ClipApplies(view)
    requires GetRawCssStyle(view, "clip") !in UnsetClipStyles
    requires MatchClipRect(GetRawCssStyle(view, "clip"), true).None?
    ensures Normalize(view) == Err(UnknownClipStyle(GetRawCssStyle(view, "clip")))
  {
  }

  /**
   * Only the first rect of a style is read: its last component may be the
   * comma the separator gave back, which is not a length, so the style is
   * refused even though a well-formed rect follows.
   */
  lemma {:induction false} CommaComponentRefused(view: NodeView)
    requires ClipApplies(view)
    requires GetRawCssStyle(view, "clip") == "rect(1px 2px 3px ,) rect(4px 5px 6px 7px)"
    ensures Normalize(view) == Err(LengthExpected(","))
  {
    var style := GetRawCssStyle(view, "clip");
    assert style !in UnsetClipStyles by {
      assert style[0] == 'r';
    }
    FirstRectResolved(view, style);
  }

  lemma {:induction false} FirstRectResolved(view: NodeView, style: string)
    requires style == "rect(1px 2px 3px ,) rect(4px 5px 6px 7px)"
    ensures ResolveRect(view, style, true) == Err(LengthExpected(","))
  {
    FirstRectWins();
    CommaComponentsRefused(view);
  }

  lemma {:induction false} CommaComponentsRefused(view: NodeView)
    ensures ResolveComponents(view, Components("1px", "2px", "3px", ",")) == Err(LengthExpected(","))
  {
    SmallPixelLengths(view);
    CommaIsNotALength(view);
  }

  lemma {:induction false} SmallPixelLengths(view: NodeView)
    ensures ComputeClipTopPxHeight(view, "1px").Ok?
    ensures ComputeClipRightPxWidth(view, "2px").Ok?
    ensures ComputeClipBottomPxHeight(view, "3px").Ok?
  {
    assert ComputeClipTopPxHeight(view, "1px").Ok? by {
      DigitPixels(view, 1, "1px");
    }
    assert ComputeClipRightPxWidth(view, "2px").Ok? by {
      DigitPixels(view, 2, "2px");
    }
    assert ComputeClipBottomPxHeight(view, "3px").Ok? by {
      DigitPixels(view, 3, "3px");
    }
  }

  lemma {:induction false} DigitPixels(view: NodeView, n: nat, expr: string)
    requires n < 10 && expr == [DigitChar(n)] + "px"
    ensures ComputeCssPxForLengthInElement(Some(view), expr) == Ok(n as real)
  {
    PixelsAsWritten(Some(view), n);
  }

  lemma {:induction false} CommaIsNotALength(view: NodeView)
    ensures ComputeClipLeftPxWidth(view, ",") == Err(LengthExpected(","))
  {
    assert MatchLengthAt(",", 0).None?;
    assert MatchLengthAt(",", 1).None?;
  }
}
