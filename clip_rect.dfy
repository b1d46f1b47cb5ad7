/**
 * CLIP_RECT_PATTERN, the regular expression both clip-style normalisers use
 * to take a `rect(top right bottom left)` value apart:
 *
 *   rect\s*\(\s*(F+)[\s,]+(F+)[\s,]+(F+)[\s,]+(L+)\s*\)      F = [^\s,]
 *
 * where the last group's class L is `[^\s]` in src/normalize/clip_style.js
 * and `[^\s,]` in src/normalize/clip-style.js. The match is JavaScript's
 * leftmost search with greedy groups. Each of the first three groups, and
 * each of the first two separators, is followed by a class disjoint from its
 * own, so its extent is forced. Two runs backtrack: the last group gives back
 * characters until `\s*\)` follows, and, when the last group may hold
 * commas, the third separator gives back commas to it (so "rect(1 2 3 ,)"
 * matches with "," as its last group). Matching is written on suffixes: each
 * step consumes a prefix and hands on the rest.
 */
module ClipRectPattern {
  import opened Outcome
  import opened Text

  /** `[^\s,]`, the class of the first three groups. */
  predicate IsFieldChar(c: char)
  {
    !IsSpace(c) && c != ','
  }

  /** `[\s,]`, the class of the separators between groups. */
  predicate IsSeparator(c: char)
  {
    IsSpace(c) || c == ','
  }

  /** `[^\s]` */
  predicate IsNonSpace(c: char)
  {
    !IsSpace(c)
  }

  /** The class of the last group: commas allowed in it or not. */
  function LastGroupClass(commaInLast: bool): char -> bool
  {
    if commaInLast then IsNonSpace else IsFieldChar
  }

  /** The string begins with the literal "rect". */
  predicate StartsWithRect(s: string)
  {
    |s| >= 4 && s[..4] == "rect"
  }

  /** The four captured groups, in the order the pattern captures them. */
  datatype Components = Components(top: string, right: string, bottom: string, left: string)

  /** What is left of s once its maximal prefix run of p is consumed. */
  function Skip(s: string, p: char -> bool): (rest: string)
    ensures |rest| <= |s| && rest == s[|s| - |rest|..]
    ensures |rest| == 0 || !p(rest[0])
  {
    s[Run(s, 0, p)..]
  }

  /** A block of p characters ended by a non-p character (or the end) is consumed exactly. */
  lemma SplitOf(a: string, b: string, p: char -> bool)
    requires forall k :: 0 <= k < |a| ==> p(a[k])
    requires |b| == 0 || !p(b[0])
    ensures Run(a + b, 0, p) == |a|
    ensures (a + b)[..|a|] == a && (a + b)[|a|..] == b
  {
    var s := a + b;
    assert forall k :: 0 <= k < |a| ==> s[k] == a[k];
    assert |b| > 0 ==> s[|a|] == b[0];
    RunOfBlock(s, 0, |a|, p);
  }

  /** One of the first three groups with the separators after it: the token and the rest. */
  function Field(s: string): (r: Option<(string, string)>)
    ensures r.Some? ==> |r.value.0| > 0 && |r.value.0| + |r.value.1| < |s|
    ensures r.Some? ==> forall k :: 0 <= k < |r.value.0| ==> IsFieldChar(r.value.0[k])
    ensures r.Some? ==> |r.value.1| == 0 || !IsSeparator(r.value.1[0])
  {
    var n := Run(s, 0, IsFieldChar);
    var rest := s[n..];
    var m := Run(rest, 0, IsSeparator);
    if n == 0 || m == 0 then None else Some((s[..n], rest[m..]))
  }

  /** Field reads back a token written with separators after it. */
  lemma FieldOf(token: string, sep: string, rest: string)
    requires |token| > 0 && forall k :: 0 <= k < |token| ==> IsFieldChar(token[k])
    requires |sep| > 0 && forall k :: 0 <= k < |sep| ==> IsSeparator(sep[k])
    requires |rest| == 0 || !IsSeparator(rest[0])
    ensures Field(token + sep + rest) == Some((token, rest))
  {
    var s := token + sep + rest;
    assert s == token + (sep + rest);
    SplitOf(token, sep + rest, IsFieldChar);
    SplitOf(sep, rest, IsSeparator);
  }

  /** `\s*\)` matches at index i of s. */
  predicate ClosesAt(s: string, i: nat)
    requires i <= |s|
  {
    var w := Run(s, i, IsSpace);
    i + w < |s| && s[i + w] == ')'
  }

  /**
   * The backtracking of the greedy last group over a run of n characters:
   * the longest k <= n after which `\s*\)` matches, or 0 when none does.
   */
  function LastClose(s: string, n: nat): (k: nat)
    requires n <= |s|
    ensures k <= n
    ensures 0 < k ==> ClosesAt(s, k)
    ensures forall m :: k < m <= n ==> !ClosesAt(s, m)
  {
    if n == 0 then 0
    else if ClosesAt(s, n) then n
    else LastClose(s, n - 1)
  }

  /** The pattern anchored at the start of s. */
  function MatchRectHere(s: string, commaInLast: bool): (r: Option<Components>)
    ensures r.Some? ==> StartsWithRect(s)
    ensures r.Some? ==> WellFormed(r.value, commaInLast)
  {
    if !StartsWithRect(s) then None
    else
      var open := Skip(s[4..], IsSpace);
      if |open| == 0 || open[0] != '(' then None
      else MatchGroups(Skip(open[1..], IsSpace), commaInLast)
  }

  /** The four groups, their separators and the closing parenthesis. */
  function MatchGroups(s: string, commaInLast: bool): (r: Option<Components>)
    ensures r.Some? ==> WellFormed(r.value, commaInLast)
  {
    match Field(s)
    case None => None
    case Some((top, afterTop)) =>
      match Field(afterTop)
      case None => None
      case Some((right, afterRight)) =>
        match Group(afterRight)
        case None => None
        case Some((bottom, afterBottom)) =>
          match LastAfterSeparator(afterBottom, Run(afterBottom, 0, IsSeparator), commaInLast)
          case None => None
          case Some(left) => Some(Components(top, right, bottom, left))
  }

  /** The third group alone: a non-empty run of `[^\s,]` and what follows it. */
  function Group(s: string): (r: Option<(string, string)>)
    ensures r.Some? ==> |r.value.0| > 0 && r.value.0 + r.value.1 == s
    ensures r.Some? ==> forall k :: 0 <= k < |r.value.0| ==> IsFieldChar(r.value.0[k])
    ensures r.Some? ==> |r.value.1| == 0 || !IsFieldChar(r.value.1[0])
  {
    var n := Run(s, 0, IsFieldChar);
    if n == 0 then None else Some((s[..n], s[n..]))
  }

  /**
   * The third separator `[\s,]+` and the last group after it. The separator
   * is greedy: the last group is tried after j separator characters, for j
   * from the whole run down to 1, and the first j that lets the rest match
   * wins. Below the whole run the last group starts on a separator
   * character, which only a comma in a comma-admitting class can be.
   */
  function LastAfterSeparator(t: string, j: nat, commaInLast: bool): (r: Option<string>)
    requires j <= |t|
    ensures r.Some? ==> 0 < |r.value| && forall k :: 0 <= k < |r.value| ==> LastGroupClass(commaInLast)(r.value[k])
    ensures j > 0 && LastGroup(t[j..], commaInLast).Some? ==> r == LastGroup(t[j..], commaInLast)
    decreases j
  {
    if j == 0 then None
    else
      match LastGroup(t[j..], commaInLast)
      case Some(left) => Some(left)
      case None => LastAfterSeparator(t, j - 1, commaInLast)
  }

  /** The last group and the closing `\s*\)`: the group as the backtracking leaves it. */
  function LastGroup(s: string, commaInLast: bool): (r: Option<string>)
    ensures r.Some? ==> 0 < |r.value| <= |s| && r.value == s[..|r.value|]
    ensures r.Some? ==> forall k :: 0 <= k < |r.value| ==> LastGroupClass(commaInLast)(r.value[k])
  {
    var k := LastClose(s, Run(s, 0, LastGroupClass(commaInLast)));
    if k == 0 then None else Some(s[..k])
  }

  /** What any match captures: four non-empty groups of the pattern's classes. */
  ghost predicate WellFormed(c: Components, commaInLast: bool)
  {
    && |c.top| > 0 && |c.right| > 0 && |c.bottom| > 0 && |c.left| > 0
    && (forall k :: 0 <= k < |c.top| ==> IsFieldChar(c.top[k]))
    && (forall k :: 0 <= k < |c.right| ==> IsFieldChar(c.right[k]))
    && (forall k :: 0 <= k < |c.bottom| ==> IsFieldChar(c.bottom[k]))
    && (forall k :: 0 <= k < |c.left| ==> LastGroupClass(commaInLast)(c.left[k]))
  }

  /** String.prototype.match with CLIP_RECT_PATTERN: the leftmost match, if any. */
  function MatchClipRect(s: string, commaInLast: bool): (r: Option<Components>)
    ensures r.Some? ==> WellFormed(r.value, commaInLast)
    decreases |s|
  {
    var m := MatchRectHere(s, commaInLast);
    if m.Some? || |s| == 0 then m else MatchClipRect(s[1..], commaInLast)
  }

  /**
   * The search is JavaScript's leftmost match: it succeeds exactly when the
   * anchored pattern matches at some index, and then gives the anchored
   * match at the first such index.
   */
  lemma {:induction false} MatchClipRectIsLeftmost(s: string, commaInLast: bool)
    ensures MatchClipRect(s, commaInLast).Some? <==>
              exists i :: 0 <= i <= |s| && MatchRectHere(s[i..], commaInLast).Some?
    ensures MatchClipRect(s, commaInLast).Some? ==>
              exists i :: 0 <= i <= |s| && MatchClipRect(s, commaInLast) == MatchRectHere(s[i..], commaInLast)
                          && forall j :: 0 <= j < i ==> MatchRectHere(s[j..], commaInLast).None?
  {
    if MatchClipRect(s, commaInLast).Some? {
      var i := FirstMatchAt(s, commaInLast);
      assert MatchRectHere(s[i..], commaInLast).Some?;
    } else {
      NoMatchAnywhere(s, commaInLast);
    }
  }

  /** The index the search stops at: the anchored pattern fails at every index before it. */
  lemma {:induction false} FirstMatchAt(s: string, commaInLast: bool) returns (i: nat)
    requires MatchClipRect(s, commaInLast).Some?
    ensures i <= |s| && MatchClipRect(s, commaInLast) == MatchRectHere(s[i..], commaInLast)
    ensures forall j :: 0 <= j < i ==> MatchRectHere(s[j..], commaInLast).None?
    decreases |s|
  {
    if MatchRectHere(s, commaInLast).Some? {
      assert s[0..] == s;
      i := 0;
    } else {
      var t := s[1..];
      var k := FirstMatchAt(t, commaInLast);
      i := k + 1;
      assert t[k..] == s[i..];
      forall j | 0 <= j < i
        ensures MatchRectHere(s[j..], commaInLast).None?
      {
        if j == 0 {
          assert s[j..] == s;
        } else {
          assert s[j..] == t[j - 1..];
        }
      }
    }
  }

  /** A search that fails found the anchored pattern at no index. */
  lemma {:induction false} NoMatchAnywhere(s: string, commaInLast: bool)
    requires MatchClipRect(s, commaInLast).None?
    ensures forall i :: 0 <= i <= |s| ==> MatchRectHere(s[i..], commaInLast).None?
    decreases |s|
  {
    forall i | 0 <= i <= |s|
      ensures MatchRectHere(s[i..], commaInLast).None?
    {
      if i == 0 {
        assert s[i..] == s;
      } else {
        var t := s[1..];
        NoMatchAnywhere(t, commaInLast);
        assert s[i..] == t[i - 1..];
      }
    }
  }

  /** A string without "rect" in it never matches. */
  lemma {:induction false} NoRectNoMatch(s: string, commaInLast: bool)
    requires forall i :: 0 <= i <= |s| ==> !StartsWithRect(s[i..])
    ensures MatchClipRect(s, commaInLast).None?
    decreases |s|
  {
    assert s[0..] == s;
    if |s| > 0 {
      assert forall i :: 0 <= i <= |s[1..]| ==> s[1..][i..] == s[i + 1..];
      NoRectNoMatch(s[1..], commaInLast);
    }
  }

  /** A token: a non-empty run of `[^\s,]`. */
  ghost predicate IsToken(t: string)
  {
    |t| > 0 && forall k :: 0 <= k < |t| ==> IsFieldChar(t[k])
  }

  /** A separator: a non-empty run of `[\s,]`, such as " " or ", ". */
  ghost predicate IsSeparatorRun(sep: string)
  {
    |sep| > 0 && forall k :: 0 <= k < |sep| ==> IsSeparator(sep[k])
  }

  /** A clip rect written out from its four components with one separator between them. */
  function Written(c: Components, sep: string): string
  {
    "rect(" + c.top + sep + c.right + sep + c.bottom + sep + c.left + ")"
  }

  /**
   * Round trip: a rect written from four tokens, with spaces or commas
   * between them, is taken apart into exactly those tokens, whichever class
   * the last group uses.
   */
  lemma MatchWritten(c: Components, sep: string, commaInLast: bool)
    requires IsToken(c.top) && IsToken(c.right) && IsToken(c.bottom) && IsToken(c.left)
    requires IsSeparatorRun(sep)
    ensures MatchClipRect(Written(c, sep), commaInLast) == Some(c)
  {
    var body := c.top + sep + c.right + sep + c.bottom + sep + c.left + ")";
    assert Written(c, sep) == "rect(" + body;
    GroupsWritten(c, sep, commaInLast);
    assert !IsSpace(body[0]);
    AfterOpening(body, commaInLast);
  }

  /** "rect(" directly followed by the groups: the anchored match is the groups' match. */
  lemma AfterOpening(body: string, commaInLast: bool)
    requires |body| == 0 || !IsSpace(body[0])
    ensures MatchRectHere("rect(" + body, commaInLast) == MatchGroups(body, commaInLast)
  {
    var s := "rect(" + body;
    assert s[..4] == "rect";
    assert s[4..] == "(" + body;
    RunOfBlock("(" + body, 0, 0, IsSpace);
    assert ("(" + body)[1..] == body;
    RunOfBlock(body, 0, 0, IsSpace);
    assert body[0..] == body;
  }

  /** The groups written with separators and a closing parenthesis are read back exactly. */
  lemma GroupsWritten(c: Components, sep: string, commaInLast: bool)
    requires IsToken(c.top) && IsToken(c.right) && IsToken(c.bottom) && IsToken(c.left)
    requires IsSeparatorRun(sep)
    ensures MatchGroups(c.top + sep + c.right + sep + c.bottom + sep + c.left + ")", commaInLast) == Some(c)
  {
    var tail := c.left + ")";
    var afterRight := c.bottom + sep + tail;
    var afterTop := c.right + sep + afterRight;
    var body := c.top + sep + afterTop;
    assert body == c.top + sep + c.right + sep + c.bottom + sep + c.left + ")";
    FieldOf(c.top, sep, afterTop);
    FieldOf(c.right, sep, afterRight);
    BottomAndLeftWritten(c.bottom, sep, c.left, commaInLast);
  }

  /** The third group, the separator after it and the last group are read back exactly. */
  lemma BottomAndLeftWritten(bottom: string, sep: string, left: string, commaInLast: bool)
    requires IsToken(bottom) && IsToken(left) && IsSeparatorRun(sep)
    ensures Group(bottom + sep + (left + ")")) == Some((bottom, sep + (left + ")")))
    ensures LastAfterSeparator(sep + (left + ")"), Run(sep + (left + ")"), 0, IsSeparator), commaInLast) == Some(left)
  {
    var tail := left + ")";
    var s := bottom + sep + tail;
    assert s == bottom + (sep + tail);
    assert (sep + tail)[0] == sep[0];
    SplitOf(bottom, sep + tail, IsFieldChar);
    assert Group(s) == Some((bottom, sep + tail));
    assert tail[0] == left[0];
    SplitOf(sep, tail, IsSeparator);
    LeftGroupOf(left, commaInLast);
  }

  /** The last group takes the token back from the closing parenthesis. */
  lemma LeftGroupOf(left: string, commaInLast: bool)
    requires IsToken(left)
    ensures LastGroup(left + ")", commaInLast) == Some(left)
  {
    var tail := left + ")";
    var last := LastGroupClass(commaInLast);
    assert forall k :: 0 <= k < |tail| ==> last(tail[k]);
    RunOfBlock(tail, 0, |tail|, last);
    RunOfBlock(tail, |left|, 0, IsSpace);
    assert ClosesAt(tail, |left|);
    assert tail[..|left|] == left;
  }

  /**
   * The third separator gives its comma back to a comma-admitting last
   * group: "rect(1 2 3 ,)" matches with "," as its left component.
   */
  lemma CommaGivenToLastGroup()
    ensures MatchClipRect("rect(1 2 3 ,)", true) == Some(Components("1", "2", "3", ","))
  {
    assert IsToken("1") && IsToken("2") && IsToken("3");
    SpelledCommaRect("1", "2", "3", "", "rect(1 2 3 ,)");
  }

  /**
   * The leftmost match is the first rect even when its last component is a
   * lone comma: the search never reaches the second rect.
   */
  lemma FirstRectWins()
    ensures MatchClipRect("rect(1px 2px 3px ,) rect(4px 5px 6px 7px)", true) == Some(Components("1px", "2px", "3px", ","))
  {
    var style := "rect(1px 2px 3px ,) rect(4px 5px 6px 7px)";
    var rest := " rect(4px 5px 6px 7px)";
    FirstRectSpelled(style, rest);
    PixelTokens();
    SecondRectDoesNotClose(rest);
    SpelledCommaRect("1px", "2px", "3px", rest, style);
  }

  /** How the style of FirstRectWins is spelled, piece by piece. */
  lemma FirstRectSpelled(style: string, rest: string)
    requires style == "rect(1px 2px 3px ,) rect(4px 5px 6px 7px)" && rest == " rect(4px 5px 6px 7px)"
    ensures style == "rect(" + "1px" + " " + "2px" + " " + "3px" + " ,)" + rest
  {
  }

  /** CommaRectMatches for a style spelled out in one piece, as the two examples above are. */
  lemma SpelledCommaRect(a: string, b: string, c: string, rest: string, s: string)
    requires IsToken(a) && IsToken(b) && IsToken(c)
    requires (|rest| == 0 || IsSpace(rest[0])) && !ClosesAt(rest, 0)
    requires s == "rect(" + a + " " + b + " " + c + " ,)" + rest
    ensures MatchClipRect(s, true) == Some(Components(a, b, c, ","))
  {
    assert "rect(" + (a + " " + (b + " " + (c + " ,)" + rest))) == s;
    CommaRectMatches(a, b, c, rest);
  }

  lemma PixelTokens()
    ensures IsToken("1px") && IsToken("2px") && IsToken("3px")
  {
  }

  lemma SecondRectDoesNotClose(rest: string)
    requires rest == " rect(4px 5px 6px 7px)"
    ensures IsSpace(rest[0]) && !ClosesAt(rest, 0)
  {
    RunOfBlock(rest, 0, 1, IsSpace);
  }

  /** A rect whose third separator ends in a comma directly before ")" matches with that comma as its last group. */
  lemma CommaRectMatches(a: string, b: string, c: string, rest: string)
    requires IsToken(a) && IsToken(b) && IsToken(c)
    requires (|rest| == 0 || IsSpace(rest[0])) && !ClosesAt(rest, 0)
    ensures MatchClipRect("rect(" + (a + " " + (b + " " + (c + " ,)" + rest))), true) == Some(Components(a, b, c, ","))
  {
    var body := a + " " + (b + " " + (c + " ,)" + rest));
    assert body[0] == a[0];
    AfterOpening(body, true);
    CommaRectGroups(a, b, c, rest);
  }

  /** The groups of "a b c ,)" followed by anything that is not a closing parenthesis after white space. */
  lemma CommaRectGroups(a: string, b: string, c: string, rest: string)
    requires IsToken(a) && IsToken(b) && IsToken(c)
    requires (|rest| == 0 || IsSpace(rest[0])) && !ClosesAt(rest, 0)
    ensures MatchGroups(a + " " + (b + " " + (c + " ,)" + rest)), true) == Some(Components(a, b, c, ","))
  {
    var afterRight := c + " ,)" + rest;
    var afterTop := b + " " + afterRight;
    assert Field(a + " " + afterTop) == Some((a, afterTop)) by {
      SpaceIsSeparatorRun();
      FieldOf(a, " ", afterTop);
    }
    assert Field(afterTop) == Some((b, afterRight)) by {
      SpaceIsSeparatorRun();
      FieldOf(b, " ", afterRight);
    }
    GroupBeforeComma(c, rest);
    SeparatorGivesBackComma(rest);
  }

  lemma SpaceIsSeparatorRun()
    ensures IsSeparatorRun(" ")
  {
  }

  /** The third group ends where the separator " ," begins. */
  lemma GroupBeforeComma(c: string, rest: string)
    requires IsToken(c)
    ensures Group(c + " ,)" + rest) == Some((c, " ,)" + rest))
  {
    assert c + " ,)" + rest == c + (" ,)" + rest);
    SplitOf(c, " ,)" + rest, IsFieldChar);
  }

  /** After " ," the group ")" cannot close, so the separator gives back its comma. */
  lemma SeparatorGivesBackComma(rest: string)
    requires (|rest| == 0 || IsSpace(rest[0])) && !ClosesAt(rest, 0)
    ensures LastAfterSeparator(" ,)" + rest, Run(" ,)" + rest, 0, IsSeparator), true) == Some(",")
  {
    SeparatorRunBeforeParen(rest);
    ParenAloneCannotClose(rest);
    CommaCloses(rest);
    BacktrackOnce(" ,)" + rest);
  }

  lemma SeparatorRunBeforeParen(rest: string)
    ensures Run(" ,)" + rest, 0, IsSeparator) == 2
  {
    var t := " ,)" + rest;
    assert t[0] == ' ' && t[1] == ',' && t[2] == ')';
    RunOfBlock(t, 0, 2, IsSeparator);
  }

  /** A separator run of two whose last character is given back to the last group. */
  lemma BacktrackOnce(t: string)
    requires |t| >= 2 && Run(t, 0, IsSeparator) == 2
    requires LastGroup(t[2..], true).None? && LastGroup(t[1..], true) == Some(",")
    ensures LastAfterSeparator(t, Run(t, 0, IsSeparator), true) == Some(",")
  {
  }

  /** A last group tried at ")" has nothing before the parenthesis, so it fails. */
  lemma ParenAloneCannotClose(rest: string)
    requires (|rest| == 0 || IsSpace(rest[0])) && !ClosesAt(rest, 0)
    ensures LastGroup((" ,)" + rest)[2..], true).None?
  {
    assert (" ,)" + rest)[2..] == ")" + rest;
    var close := ")" + rest;
    RunOfBlock(close, 0, 1, IsNonSpace);
    ClosesAtSuffix(")", rest, 0);
  }

  /** A last group tried at ",)" takes the comma and leaves the parenthesis to close. */
  lemma CommaCloses(rest: string)
    requires (|rest| == 0 || IsSpace(rest[0])) && !ClosesAt(rest, 0)
    ensures LastGroup((" ,)" + rest)[1..], true) == Some(",")
  {
    assert (" ,)" + rest)[1..] == ",)" + rest;
    var comma := ",)" + rest;
    RunOfBlock(comma, 0, 2, IsNonSpace);
    ClosesAtSuffix(",)", rest, 0);
    RunOfBlock(comma, 1, 0, IsSpace);
    assert ClosesAt(comma, 1);
    assert comma[..1] == ",";
  }

  /** `\s*\)` inside the second part of a concatenation matches as it does in that part. */
  lemma ClosesAtSuffix(x: string, y: string, k: nat)
    requires k <= |y|
    ensures ClosesAt(x + y, |x| + k) == ClosesAt(y, k)
  {
    RunOfSuffix(x, y, k, IsSpace);
    var w := Run(y, k, IsSpace);
    if k + w < |y| {
      assert (x + y)[|x| + k + w] == y[k + w];
    }
  }
}
