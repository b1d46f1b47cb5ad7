/**
 * The earlier clip normaliser, src/normalize/clip-style.js. It differs from
 * the current one (module ClipStyle) in four ways: it does not look at the
 * element's position, it has no IE8 all-"auto" check, it also treats
 * "unset" and "initial" as no clip, and its pattern's last group excludes
 * commas. The resolvers are the same code and are shared.
 */
module ClipStyleV1 {
  import opened Outcome
  import opened Dom
  import opened StyleUtil
  import opened ClipRectPattern
  import ClipStyle

  /** The values that mean no clip is set. */
  const UnsetClipStyles: seq<string> := ["", "auto", "unset", "initial"]

  /** The clip style this revision reads: the computed one, or the IE8 rebuild when that is empty. */
  function EffectiveStyle(view: NodeView): (style: string)
    ensures GetRawCssStyle(view, "clip") != "" ==> style == GetRawCssStyle(view, "clip")
    ensures GetRawCssStyle(view, "clip") == "" ==> style == ClipStyle.LegacyClipStyle(view)
  {
    var computed := GetRawCssStyle(view, "clip");
    if computed == "" then ClipStyle.LegacyClipStyle(view) else computed
  }

  /**
   * normalize: the clip rectangle relative to the bounding box's top-left
   * corner, None for an unset style, an error for a style the pattern
   * cannot read or a component that is not a length.
   */
  function Normalize(view: NodeView): (r: Result<Option<ClipStyle.ClipRect>>)
    ensures EffectiveStyle(view) in UnsetClipStyles <==> r == Ok(None)
    ensures r.Ok? && r.value.Some? ==> ClipStyle.Consistent(r.value.value)
    ensures EffectiveStyle(view) !in UnsetClipStyles ==>
              r == ClipStyle.MapSome(ClipStyle.ResolveRect(view, EffectiveStyle(view), false))
  {
    var style := EffectiveStyle(view);
    if style in UnsetClipStyles then Ok(None)
    else ClipStyle.MapSome(ClipStyle.ResolveRect(view, style, false))
  }

  /**
   * On a positioned element whose computed clip is a rect of four tokens,
   * both revisions compute the same rectangle.
   */
  lemma AgreesOnWrittenRects(view: NodeView, c: Components, sep: string)
    requires ClipStyle.ClipApplies(view)
    requires IsToken(c.top) && IsToken(c.right) && IsToken(c.bottom) && IsToken(c.left)
    requires IsSeparatorRun(sep)
    requires GetRawCssStyle(view, "clip") == Written(c, sep)
    ensures Normalize(view) == ClipStyle.Normalize(view)
  {
    var style := Written(c, sep);
    assert style[0] == 'r';
    assert ClipStyle.ResolveRect(view, style, false) == ClipStyle.ResolveComponents(view, c) by {
      MatchWritten(c, sep, false);
    }
    assert ClipStyle.ResolveRect(view, style, true) == ClipStyle.ResolveComponents(view, c) by {
      MatchWritten(c, sep, true);
    }
  }

  /**
   * This revision ignores position: an all-"auto" clip on an element that
   * is not absolutely or fixed positioned still yields the border box,
   * where the current revision reports no clip.
   */
  lemma IgnoresPosition(view: NodeView, sep: string)
    requires !ClipStyle.ClipApplies(view)
    requires IsSeparatorRun(sep)
    requires GetRawCssStyle(view, "clip") == Written(Components("auto", "auto", "auto", "auto"), sep)
    ensures var w := view.offsetWidth as real;
            var h := view.offsetHeight as real;
            Normalize(view) == Ok(Some(ClipStyle.ClipRect(0.0, w, h, 0.0, w, h)))
    ensures ClipStyle.Normalize(view) == Ok(None)
  {
    var style := Written(Components("auto", "auto", "auto", "auto"), sep);
    assert style[0] == 'r';
    ClipStyle.ResolveAllAuto(view, sep, false);
  }

  /** "unset" and "initial" mean no clip here; the current revision cannot read them. */
  lemma UnsetKeywords(view: NodeView)
    requires ClipStyle.ClipApplies(view)
    requires GetRawCssStyle(view, "clip") == "unset" || GetRawCssStyle(view, "clip") == "initial"
    ensures Normalize(view) == Ok(None)
    ensures ClipStyle.Normalize(view) == Err(UnknownClipStyle(GetRawCssStyle(view, "clip")))
  {
    var style := GetRawCssStyle(view, "clip");
    assert forall k :: 0 <= k < |style| ==> style[k] != 'r';
    NoLetterR(style);
    NoRectNoMatch(style, true);
  }

  /**
   * IE8: with an empty computed clip and all four components "auto", this
   * revision rebuilds "rect(auto auto auto auto)" and clips at the border
   * box; the current revision, given an empty assigned clip, reports no clip.
   */
  lemma LegacyAllAuto(view: NodeView)
    requires ClipStyle.ClipApplies(view)
    requires GetRawCssStyle(view, "clip") == "" && view.inlineClip == ""
    requires ClipStyle.AllAuto(ClipStyle.LegacyComponents(view))
    ensures var w := view.offsetWidth as real;
            var h := view.offsetHeight as real;
            Normalize(view) == Ok(Some(ClipStyle.ClipRect(0.0, w, h, 0.0, w, h)))
    ensures ClipStyle.Normalize(view) == Ok(None)
  {
    var c := Components("auto", "auto", "auto", "auto");
    var style := Written(c, " ");
    assert EffectiveStyle(view) == style by {
      assert ClipStyle.LegacyComponents(view) == c;
    }
    assert style !in UnsetClipStyles by {
      assert style[0] == 'r';
    }
    assert ClipStyle.ResolveRect(view, style, false)
        == Ok(ClipStyle.ClipRect(0.0, view.offsetWidth as real, view.offsetHeight as real, 0.0,
                                 view.offsetWidth as real, view.offsetHeight as real)) by {
      assert IsSeparatorRun(" ");
      ClipStyle.ResolveAllAuto(view, " ", false);
    }
    ClipStyle.LegacyAllAutoIsUnset(view);
  }

  /** A string without the letter r holds no "rect". */
  lemma NoLetterR(s: string)
    requires forall k :: 0 <= k < |s| ==> s[k] != 'r'
    ensures forall i :: 0 <= i <= |s| ==> !StartsWithRect(s[i..])
  {
    forall i | 0 <= i <= |s|
      ensures !StartsWithRect(s[i..])
    {
      if |s[i..]| >= 4 {
        assert s[i..][..4][0] == s[i] != 'r';
      }
    }
  }
}
