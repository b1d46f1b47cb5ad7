# Quixote clip and visible-geometry model

This project models the part of Quixote, a CSS unit-testing library, that
answers "which part of an element can be seen": how a `clip` style is
normalised into a rectangle in pixels, how a clip edge and a visible edge of
an element are computed from it, and how a visible width or height is the
clamped distance between two visible edges. It also models the `QElement`
object that wires these descriptors together.

The browser is a parameter. A `StylingEngine` maps a DOM node to a
`NodeView`. The view holds the computed styles, the element's bounding
client rectangle, `offsetWidth`/`offsetHeight`, the inline clip, whether the
node has a parent, the size of the unit-probe element in pixels, and the
frame's scroll offset. Every operation reads only that view.

Modules, one per source file:

- `StyleUtil` (`src/util/style_util.js`). `getRawCssStyle` and
  `computeCssPxForLengthInElement`: the `LENGTH_EXPR_PATTERN` match, a
  `parseFloat` of decimal numerals, and the unit-to-pixel ratio, which is 1
  for `px` or without a parent node.
- `ClipRectPattern` (the `CLIP_RECT_PATTERN` regular expressions). The
  leftmost match, including the greedy last group giving characters back to
  `\s*\)` and the greedy third separator giving commas back to a last group
  that admits them. The flag `commaInLast` chooses the last group's class: `[^\s]+` in
  `clip_style.js`, `[^\s,]+` elsewhere.
- `ClipStyle` (`src/normalize/clip_style.js`, the current normaliser). The
  position gate, `"auto"`, the IE8 fallbacks, the unset styles, the pattern,
  and the four `auto` resolvers.
- `ClipStyleV1` (`src/normalize/clip-style.js`, the earlier normaliser). The
  same, without the position gate and the IE8 all-auto test, and with
  `"unset"`/`"initial"` unset.
- `ElementClipEdge` (`src/descriptors/element_clip_edge.js`).
- `ElementVisibleEdge` (`src/descriptors/element_visible_edge.js`).
- `ElementVisibleSize` (`src/descriptors/element_visible_size.js`).
- `QElements` (`src/q_element.js`). Its `clip` descriptors are visible edges
  and visible sizes, because that file requires `element_visible_edge.js`
  under the name `ElementClipEdge`.
- Support modules: `Outcome` (Option, Result, and the failures the source
  throws), `Values` (Pixels/NoPixels lengths, positions and sizes), `Dom`
  (the engine's view of a node) and `Text` (character classes and runs).

A thrown exception is an `Err` value. `ensure.unreachable("Unknown clip css
style: …")` becomes `UnknownClipStyle`. `ensure.unreachable("CSS length
expression expected…")` becomes `LengthExpected`. `ClipNotAppliedException`
becomes `ClipNotApplied`. `ensure.unreachable("Unknown position: …")` becomes
`UnknownPosition`. `ensure.that(…"Unrecognized dimension"…)` becomes
`UnrecognizedDimension`.

## Model

| member | source | states |
|---|---|---|
| StyleUtil.GetRawCssStyle | src/util/style_util.js:66-81 | the computed value of the named property, or "" when the engine has none |
| StyleUtil.FractionAtBounds | src/util/style_util.js:104 | the digits after a decimal point are worth at least 0 and less than 1 |
| StyleUtil.FractionAtZeroIff | src/util/style_util.js:104 | the digits after a decimal point are worth 0 exactly when each of them is "0" |
| StyleUtil.ParseUnsignedDecimal | src/util/style_util.js:104 | an unsigned number is read exactly when the text starts with a digit, or with a dot and a digit |
| StyleUtil.UnsignedIsNonNegative | src/util/style_util.js:104 | a number read without a sign is never negative |
| StyleUtil.ParseFloatIsNumber | src/util/style_util.js:104 | parseFloat is NaN exactly when no digit, nor a dot and a digit, follows the leading white space and the sign; a minus sign gives a value of at most 0, otherwise it is at least 0 |
| StyleUtil.LeadingSpaceIgnored | src/util/style_util.js:104 | white space in front of the text does not change what parseFloat reads |
| StyleUtil.UnsignedOfDecimal | src/util/style_util.js:104 | "w.d" is read as the value of the whole digits plus the fraction of the digits after the dot |
| StyleUtil.ParseFloatSigned | src/util/style_util.js:104 | a "+" or "-" in front of a number starting with a digit sets the sign of what parseFloat reads |
| StyleUtil.ParseFloatOfDecimal | src/util/style_util.js:104 | parseFloat reads a printed decimal "w.d", with or without a sign, as w plus the fraction of d, negated after "-" |
| StyleUtil.NumeralRoundTrip | src/util/style_util.js:104 | reading back a printed whole number gives the number: the digit reader that parseFloat uses is a left inverse of printing |
| StyleUtil.ParseFloatOfNumeral | src/util/style_util.js:104 | parseFloat reads a printed whole number as written, with "+" and "-" signs too |
| StyleUtil.MatchLengthIff | src/util/style_util.js:56 | LENGTH_EXPR_PATTERN matches a string exactly when some digit or dot in it is directly followed by a letter (both directions) |
| StyleUtil.MatchLengthOfNumeral | src/util/style_util.js:56 | a signed numeral followed by a unit of letters is captured as exactly that number and that unit |
| StyleUtil.UnitRatio | src/util/style_util.js:19-53 | the ratio is 1 for "px", for an empty unit, without an element or without a parent; otherwise it is the probe's offsetWidth over 100 |
| StyleUtil.ComputeCssPxForLengthInElement | src/util/style_util.js:95-105 | the only failures are "length expected" and a number parseFloat cannot read |
| StyleUtil.LengthExpectedIff | src/util/style_util.js:95-100 | an expression is refused as not a length exactly when the pattern finds no number before a unit |
| StyleUtil.LengthOfNumeral | src/util/style_util.js:104 | n units convert to n times the unit's ratio |
| StyleUtil.LengthOfNegatedNumeral | src/util/style_util.js:104 | a minus sign in front negates the converted length |
| StyleUtil.LengthOfDecimal | src/util/style_util.js:95-105 | a decimal "w.d" of a unit, signed or not, converts to its signed value times the unit's ratio |
| StyleUtil.OneAndAHalfEms | src/descriptors/_element_visible_edge_test.js:91 | "1.500em" is 1.5 times the element's em ratio |
| StyleUtil.FivePointThreeThirteenEms | src/descriptors/_element_visible_edge_test.js:91 | "5.313em" is 5.313 times the element's em ratio |
| StyleUtil.PixelsAsWritten | src/util/style_util.js:27 | n px and -n px are n and -n pixels on any element |
| StyleUtil.UnitLengthAsWritten | src/util/style_util.js:104 | with a unit worth one pixel, a whole number is taken as written |
| StyleUtil.NegatedUnitLengthAsWritten | src/util/style_util.js:104 | the same for a negated whole number |
| StyleUtil.BareZeroIsNotALength | src/util/style_util.js:96-100 | "0" without a unit is refused as not a length |
| StyleUtil.FiveHundredPixels | src/util/_style_util_test.js:27-31 | "500px" is 500 pixels |
| StyleUtil.PixelsOfSignedNumeral | src/util/style_util.js:95-105 | any whole number of px, negative ones included, is read as written |
| ClipRectPattern.Skip | src/normalize/clip_style.js:48 | a `\s*` or `[\s,]+` run consumes a maximal prefix and leaves a suffix |
| ClipRectPattern.SplitOf | src/normalize/clip_style.js:48 | a block of class characters ended by a character outside the class is consumed exactly |
| ClipRectPattern.Field | src/normalize/clip_style.js:48 | one of the first three groups is a non-empty run of `[^\s,]` followed by at least one separator |
| ClipRectPattern.FieldOf | src/normalize/clip_style.js:48 | a field reads back the token written before its separators |
| ClipRectPattern.LastClose | src/normalize/clip_style.js:48 | greedy backtracking of the last group: the longest prefix after which `\s*\)` matches, and no longer one exists |
| ClipRectPattern.MatchRectHere | src/normalize/clip_style.js:48 | an anchored match starts with "rect" and captures four well-formed groups, the last one as the backtracking of the third separator and of the last group leaves it |
| ClipRectPattern.MatchGroups | src/normalize/clip_style.js:48 | what the groups capture is well formed |
| ClipRectPattern.Group | src/normalize/clip_style.js:48 | the third group is the maximal non-empty run of `[^\s,]` and the text splits exactly after it |
| ClipRectPattern.LastAfterSeparator | src/normalize/clip_style.js:48 | the greedy third separator: when the last group matches after the whole separator run that is the match; otherwise shorter runs are tried, and any result is a non-empty run of the last group's class |
| ClipRectPattern.BottomAndLeftWritten | src/normalize/clip_style.js:48 | the third group, a separator and the last group written out are read back exactly |
| ClipRectPattern.CommaRectGroups | src/normalize/clip_style.js:48 | after three tokens, " ,)" gives its comma back to a comma-admitting last group |
| ClipRectPattern.CommaRectMatches | src/normalize/clip_style.js:48 | "rect(a b c ,)" followed by anything that does not close at once matches with "," as its last component |
| ClipRectPattern.CommaGivenToLastGroup | src/normalize/clip_style.js:48 | "rect(1 2 3 ,)" matches with components 1, 2, 3 and "," |
| ClipRectPattern.FirstRectWins | src/normalize/clip_style.js:107 | in "rect(1px 2px 3px ,) rect(4px 5px 6px 7px)" the leftmost match is the first rect, with "," as its last component |
| ClipRectPattern.LastGroup | src/normalize/clip_style.js:48 | the last group is a non-empty prefix in its class |
| ClipRectPattern.MatchClipRect | src/normalize/clip_style.js:107 | any match captures four non-empty groups of the pattern's classes |
| ClipRectPattern.MatchClipRectIsLeftmost | src/normalize/clip_style.js:107 | the search succeeds exactly when the anchored pattern matches at some index, and then gives the match at the first such index |
| ClipRectPattern.FirstMatchAt | src/normalize/clip_style.js:107 | a found match is the anchored match at an index before which the anchored pattern fails everywhere |
| ClipRectPattern.NoMatchAnywhere | src/normalize/clip_style.js:107-110 | a failed search means the anchored pattern fails at every index |
| ClipRectPattern.NoRectNoMatch | src/normalize/clip_style.js:107-110 | a string that holds no "rect" never matches |
| ClipRectPattern.MatchWritten | src/normalize/clip_style.js:48 | round trip: a rect written from four tokens, with space or comma separators, is taken apart into exactly those tokens, with either last-group class |
| ClipRectPattern.AfterOpening | src/normalize/clip_style.js:48 | after "rect(" the anchored match is the match of the groups |
| ClipRectPattern.GroupsWritten | src/normalize/clip_style.js:48 | the four groups written with separators and ")" are read back exactly |
| ClipRectPattern.LeftGroupOf | src/normalize/clip_style.js:48 | the last group gives the ")" back and captures exactly its token |
| ClipStyle.ComputeClipTopPxHeight | src/normalize/clip_style.js:9-15 | "auto" is offset 0; anything else is the length in pixels |
| ClipStyle.ComputeClipRightPxWidth | src/normalize/clip_style.js:17-26 | "auto" is offsetWidth; anything else is the length in pixels |
| ClipStyle.ComputeClipBottomPxHeight | src/normalize/clip_style.js:28-37 | "auto" is offsetHeight; anything else is the length in pixels |
| ClipStyle.ComputeClipLeftPxWidth | src/normalize/clip_style.js:39-45 | "auto" is offset 0; anything else is the length in pixels |
| ClipStyle.ResolveRect | src/normalize/clip_style.js:107-126 | a style the pattern cannot read is exactly the "unknown clip css style" error; a result always has width = right - left and height = bottom - top |
| ClipStyle.ResolveComponents | src/normalize/clip_style.js:112-126 | a resolved rectangle is consistent; a failure is a length failure |
| ClipStyle.Assemble | src/normalize/clip_style.js:113-126 | the rectangle exists exactly when all four offsets resolve, and holds them; otherwise the first failure in the order top, right, bottom, left |
| ClipStyle.ResolveAllAuto | src/normalize/clip_style.js:9-45 | "rect(auto auto auto auto)" with any separators is the border box: 0, offsetWidth, offsetHeight, 0 |
| ClipStyle.ResolveLengths | src/normalize/clip_style.js:107-126 | a rect written in lengths resolves to the rectangle of those lengths |
| ClipStyle.LegacyClipStyle | src/normalize/clip_style.js:83-98 | IE8: with all four clip-* components set, the style is "rect(t r b l)" with single spaces; otherwise it stays "" |
| ClipStyle.Normalize | src/normalize/clip_style.js:63-127 | no clip unless the position is absolute or fixed; "auto" is no clip; a result is consistent; a set style is the resolved rect or its error |
| ClipStyle.MapSome | src/normalize/clip_style.js:118-126 | a resolved rectangle is a present clip and a failure stays the same failure |
| ClipStyle.NormalizeAllAuto | src/normalize/_clip_style_test.js:58-71 | a positioned element with an all-auto clip is clipped at its border box |
| ClipStyle.NormalizeLengths | src/normalize/_clip_style_test.js:97-110 | a positioned element's clip in lengths is read as written, edges outside the box included |
| ClipStyle.LegacyAllAutoIsUnset | src/normalize/clip_style.js:88-93 | IE8: an empty computed and inline clip with all four components "auto" is no clip |
| ClipStyle.LegacyRebuilt | src/normalize/clip_style.js:95-105 | IE8: otherwise an empty clip is rebuilt from the four components, and stays unset when one is missing |
| ClipStyle.CommaComponentRefused | src/normalize/clip_style.js:107-126 | on a positioned element, the clip "rect(1px 2px 3px ,) rect(4px 5px 6px 7px)" fails with "length expected" for the comma: only the first rect is read |
| ClipStyle.FirstRectResolved | src/normalize/clip_style.js:107-126 | resolving that style gives the same failure |
| ClipStyle.UnknownStyleFails | src/normalize/clip_style.js:107-110 | a set clip the pattern cannot read is reported as an unknown clip style |
| ClipStyleV1.EffectiveStyle | src/normalize/clip-style.js:54-69 | the computed clip, or the IE8 rebuild when the computed clip is empty |
| ClipStyleV1.Normalize | src/normalize/clip-style.js:53-97 | no clip exactly for "", "auto", "unset" and "initial"; otherwise the resolved rect or its error; a result is consistent |
| ClipStyleV1.AgreesOnWrittenRects | src/normalize/clip-style.js:77-96 | on a positioned element with a rect of four tokens, both normalisers give the same result |
| ClipStyleV1.IgnoresPosition | src/normalize/clip-style.js:53-56 | this version has no position gate: an all-auto clip on a static element is the border box, where the current version gives no clip |
| ClipStyleV1.UnsetKeywords | src/normalize/clip-style.js:47 | "unset" and "initial" are no clip here and an unknown style in the current version |
| ClipStyleV1.LegacyAllAuto | src/normalize/clip-style.js:56-69 | IE8 all-auto: this version clips at the border box, the current one reports no clip |
| ClipStyleV1.NoLetterR | src/normalize/clip-style.js:48 | a string without the letter r holds no "rect" |
| ElementClipEdge.Create | src/descriptors/element_clip_edge.js:17-27 | an edge is built exactly for "top", "right", "bottom" and "left", and keeps the element and the side; anything else is an unknown position |
| ElementClipEdge.InViewport | src/descriptors/element_clip_edge.js:104-118 | the clip moved by the bounding box's top-left corner, with width and height as differences of the moved edges |
| ElementClipEdge.GetRawClipPosition | src/descriptors/element_clip_edge.js:67-119 | null exactly when the earlier normaliser gives no clip (that code repeats the earlier normaliser's constants and steps); its errors are passed on; otherwise a consistent rectangle of the normalised width and height; a present clip is the normalised rectangle moved by the bounding box's left and top |
| ElementClipEdge.Value | src/descriptors/element_clip_edge.js:36-51 | ClipNotApplied exactly when there is no clip, and the normaliser's error passed on; a present clip gives the pixel position of its edge plus the bounding box's corner plus the frame's scroll along the side's axis |
| ElementClipEdge.EdgeInPage | src/descriptors/element_clip_edge.js:46-50 | a normalised clip edge is moved by the bounding box's corner and the scroll offset |
| ElementClipEdge.ValueFrom | src/descriptors/element_clip_edge.js:39-50 | a result exists exactly for a present clip, and is the clip's edge plus the frame's scroll along that axis |
| ElementClipEdge.ToString | src/descriptors/element_clip_edge.js:53-56 | "clip <side> edge of '<nickname>'" |
| ElementClipEdge.OppositeEdgesSpanClip | src/descriptors/element_clip_edge.js:107-118 | the distance between opposite clip edges is the clip's width or height |
| ElementClipEdge.BoxClipIsElementBox | src/descriptors/element_clip_edge.js:104-118 | a clip equal to the border box puts every clip edge on the element's own edge |
| ElementClipEdge.NoClipNotApplied | src/descriptors/element_clip_edge.js:41-44 | without a clip, every edge fails with a message naming the edge and the element |
| ElementVisibleEdge.Create | src/descriptors/element_visible_edge.js:21-31 | an edge is built exactly for the four side names; anything else is an unknown position |
| ElementVisibleEdge.Opposite | src/descriptors/element_visible_edge.js:40-44 | the opposite edge is another edge on the same axis |
| ElementVisibleEdge.OppositeInvolution | src/descriptors/element_visible_edge.js:40-44 | going across twice gives back the same edge |
| ElementVisibleEdge.NotVisibleEdge | src/descriptors/element_visible_edge.js:46-48 | a NoPixels position on the edge's axis |
| ElementVisibleEdge.ClipOffsets | src/descriptors/element_visible_edge.js:67-68 | a present clip gives its six numbers as pixels; no clip gives NoPixels throughout |
| ElementVisibleEdge.VisibleEdge | src/descriptors/element_visible_edge.js:69-97 | with no clip, the element's edge; with a clip of no width or no height, NoPixels; otherwise a pixel length |
| ElementVisibleEdge.ValueWith | src/descriptors/element_visible_edge.js:50-101 | a hidden, undisplayed or transparent element has a NoPixels edge; otherwise a normaliser error is passed on, or the visible edge on the side's axis |
| ElementVisibleEdge.Value | src/descriptors/element_visible_edge.js:50-101 | a result is a position on the side's axis |
| ElementVisibleEdge.ToString | src/descriptors/element_visible_edge.js:103-106 | "clip <side> edge of '<nickname>'" |
| ElementVisibleEdge.ZeroOpacityHides | src/descriptors/element_visible_edge.js:61-65 | an opacity of "0" hides the element |
| ElementVisibleEdge.DecimalOpacity | src/descriptors/element_visible_edge.js:59-63 | with a decimal opacity, signed or not, the element is not visible exactly when visibility is "hidden", display is "none", or every digit of the opacity is a zero |
| ElementVisibleEdge.NaNOpacityShows | src/descriptors/element_visible_edge.js:59-63 | an opacity parseFloat reads as NaN never hides: the element is not visible exactly when visibility is "hidden" or display is "none" |
| ElementVisibleEdge.NoClipIsElementEdge | src/descriptors/element_visible_edge.js:71-75 | without a clip, a visible element's visible edge is its own edge |
| ElementVisibleEdge.FullyClippedIsNotVisible | src/descriptors/element_visible_edge.js:78-81 | a clip with no width or no height leaves no visible edge |
| ElementVisibleEdge.WithinElementBox | src/descriptors/element_visible_edge.js:83-96 | a visible edge never leaves the element's box along its axis |
| ElementVisibleEdge.VisibleSpanIsOverlap | src/descriptors/element_visible_edge.js:83-96 | the low and high visible edges are the ends of the overlap of the box and the placed clip, or meet when they miss |
| ElementVisibleEdge.EdgesOfOneKind | src/descriptors/element_visible_edge.js:50-101 | any two visible edges read from one view succeed together and are both pixels or both NoPixels |
| ElementVisibleEdge.BorderClipExample | src/descriptors/_element_visible_edge_test.js:56-69 | a box at (10,10) of 100 by 100 with clip rect(10 90 90 10) has visible edges 20 and 100 |
| ElementVisibleEdge.BorderClipAxis | src/descriptors/_element_visible_edge_test.js:56-69 | the same case on one axis |
| ElementVisibleEdge.ValueAsWritten | src/descriptors/element_visible_edge.js:50-101 | as written: every visible element fails with a TypeError once the normaliser answers |
| ElementVisibleEdge.AsWrittenFailsBorderClip | src/descriptors/element_visible_edge.js:67-68 | on the border-clip case the code as written fails where the intended reading gives 20 |
| ElementVisibleSize.DimensionNamed | src/descriptors/element_visible_size.js:13-19 | exactly "width" and "height" are dimensions; anything else is unrecognised |
| ElementVisibleSize.Create | src/descriptors/element_visible_size.js:16-25 | a size is built exactly for "width" and "height", and keeps both positions and the description |
| ElementVisibleSize.X | src/descriptors/element_visible_size.js:28 | the x factory is the constructor with "width" |
| ElementVisibleSize.Y | src/descriptors/element_visible_size.js:29 | the y factory is the constructor with "height" |
| ElementVisibleSize.ValueOf | src/descriptors/element_visible_size.js:31-41 | NoPixels when either edge is not visible (the second is not read when the first is not); otherwise the distance between the edges, never negative; positions on different axes cannot be subtracted |
| ElementVisibleSize.ToString | src/descriptors/element_visible_size.js:43-46 | the description |
| ElementVisibleSize.OrderedEdgesGiveDistance | src/descriptors/element_visible_size.js:38-40 | ordered edges give their distance; edges in the wrong order give zero |
| QElements.Midpoint | src/q_element.js:28-29 | the centre of two pixel positions is equidistant from both (their average); two NoPixels give NoPixels; a pixel length with NoPixels is refused, as the value objects refuse it, and positions on different axes are refused |
| QElements.PositionValue | src/q_element.js:23-41 | an element edge is its raw edge, a visible edge is that descriptor's value, and a centre is the midpoint of its two positions' values or the first failure among them |
| QElements.SizeValue | src/q_element.js:31-43 | a visible size is the value of its two edges; an element size is the distance from its low raw edge to its high raw edge |
| QElements.QElement.Ref | src/q_element.js:13-20 | what a descriptor keeps is this element's node, frame and nickname |
| QElements.QElement.constructor | src/q_element.js:13-44 | keeps the node, frame and nickname and wires every edge, centre, size and clip descriptor with its description |
| QElements.QElement.GetRawStyle | src/q_element.js:47-52 | the computed style of this element, or "" when there is none |
| QElements.QElement.GetRawPosition | src/q_element.js:54-58 | as intended: the bounding client rectangle of this element |
| QElements.QElement.GetRawPositionAsWritten | src/q_element.js:57 | as written: the call of StyleUtil.getRawBoundingRect, which StyleUtil does not define, fails with a TypeError |
| QElements.RawPositionAsWrittenFails | src/q_element.js:57 | the code as written fails where the intended reading gives the bounding rectangle |
| QElements.QElement.ToDomElement | src/q_element.js:60-63 | the wrapped node |
| QElements.QElement.ToString | src/q_element.js:65-68 | the nickname in single quotes |
| QElements.ClipSizeIsOverlap | src/q_element.js:42-43 | a visible clipped element's clip width or height is the length of the overlap of its box and its clip |
| QElements.VisibleSizeIsOverlap | src/descriptors/element_visible_size.js:31-41 | the visible size between a clipped element's low and high visible edges is the overlap length |
| QElements.InvisibleHasNoClipRect | src/q_element.js:40-43 | an invisible element's clip width, height, centre and middle are NoPixels |
| QElements.ClipCentreIsAverage | src/q_element.js:40-41 | the clip centre and middle are the averages of the opposite visible edges, which are always both pixels or both NoPixels, so the refused mixed pair never arises |
| QElements.UnclippedClipSizeIsElementSize | src/q_element.js:31-43 | without a clip, a visible element's clip size is its own size |
| QElements.EqualsIsNodeIdentity | src/q_element.js:70-73 | equals holds exactly when both wrap the same node; it is reflexive, symmetric and transitive |
| QElements.EqualElementsAgree | src/q_element.js:70-73 | QElements that are equal give equal clip edges and sizes |
| Values.SideNamed | src/descriptors/element_visible_edge.js:25-27 | exactly the four side names are sides; anything else is an unknown position |
| Values.Plus | src/descriptors/element_visible_edge.js:88 | NoPixels stays NoPixels; pixels add |
| Values.Minus | src/descriptors/element_visible_size.js:38 | NoPixels stays NoPixels; pixels subtract |
| Values.Max | src/descriptors/element_visible_edge.js:89 | one of the two lengths, and no less than either |
| Values.Min | src/descriptors/element_visible_edge.js:94 | one of the two lengths, and no more than either |
| Values.Compare | src/descriptors/element_visible_edge.js:79 | the sign of the difference of two pixel lengths |

## Left out

- `src/normalize/clip.js` is not part of this model. The descriptors use the two normalisers above.
- The unit probe of `computeCssUnitToCssPxRatio` is a parameter (`NodeView.probeWidth`). It creates a span, appends it to the element or its parent, and reads its offsetWidth. The model does not cover the DOM mutation or the "appendChild failed" error.
- Browser style lookup is a parameter. The model does not cover `getComputedStyle` against `currentStyle` or the camel-casing of property names. The cascade and `inherit` also happen inside the engine.
- The bounding rectangle, offsetWidth/offsetHeight and the frame's scroll position are engine readings passed in as parameters.
- `element_edge.js`, `center.js`, `element_size.js`, `position_descriptor.js`, `size_descriptor.js` and `src/values/*.js` are not part of this model. Element edges, centres and element sizes are simple stand-ins computed from the bounding rectangle (`QElements.PositionValue`, `QElements.SizeValue`).
- QElements.QElement.GetRawPosition: the model reads the engine's bounding rectangle, where `q_element.js:57` calls `StyleUtil.getRawBoundingRect`, which `style_util.js` does not define; the code as written is `GetRawPositionAsWritten` (see Findings).
- QElements.Midpoint: the refusal of a mixed pair is `IncompatibleLengths`; the exception the value objects throw is in `src/values/*.js`, which is not part of this model.
- Numbers are exact reals, not IEEE doubles, so rounding is not modelled.
- StyleUtil.ParseFloat skips leading white space, reads an optional sign and digits with at most one dot, and ignores what follows. It does not read exponents or "Infinity", and it does not round to a double: an opacity of "1e-400", which JavaScript reads as 0, is read here as 1.
- StyleUtil.ComputeCssPxForLengthInElement: when parseFloat yields NaN the model returns `Err(NotANumber)` instead of a NaN number.
- `ensure.signature` argument checks are not modelled. The types of the Dafny members stand in for them.
- The test harness and the browser fixtures of the test files are not modelled. Selected test cases are stated as lemmas.
- ElementVisibleEdge.Value states only the axis of its result. Its full meaning is ValueWith on the current normaliser's result, and the lemmas about ValueWith carry the properties.
- `element_clip_edge.js` lines 64-102 repeat, step for step, the constants and the code of `clip-style.js`. The model therefore reads them through `ClipStyleV1.Normalize` and does not copy them a third time.

## Findings

| source | as written | input that shows it | evidently intended | confidence | as-written member | corrected member |
|---|---|---|---|---|---|---|
| src/descriptors/element_visible_edge.js:67-68 | `ClipStyle.normalize` returns plain numbers or null, and `value()` calls `clipEdgeOffsets[this._position].toPixels()` on them (and `.width.toPixels()` at line 79). A number has no `toPixels` and null has no properties, so every visible element throws a TypeError | a visible element at (10,10), 100 by 100, clipped to rect(10px, 90px, 90px, 10px): the test at `_element_visible_edge_test.js:56-69` expects top 20, while the code as written throws | read each number as Pixels and a null clip as NoPixels offsets, then clamp as lines 75-96 do | not executed | ElementVisibleEdge.ValueAsWritten, ElementVisibleEdge.AsWrittenFailsBorderClip | ElementVisibleEdge.ValueWith, ElementVisibleEdge.ClipOffsets, ElementVisibleEdge.BorderClipExample |
| src/q_element.js:57 | `getRawPosition` returns `StyleUtil.getRawBoundingRect(this._domElement)`, but `style_util.js` exports only `getRawCssStyle` and `computeCssPxForLengthInElement` (lines 58-111) | any call of `getRawPosition()` on any QElement: reading the missing property gives undefined, and calling it throws a TypeError | the element's bounding client rectangle | not executed | QElements.QElement.GetRawPositionAsWritten, QElements.RawPositionAsWrittenFails | QElements.QElement.GetRawPosition |
