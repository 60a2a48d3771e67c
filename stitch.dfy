/** The caption compositor of `stitch_image_outside.py`: the gendered word
    replacement, the HTML text parser's state, the greedy word wrap and the
    layout arithmetic of `stitch`. Fonts and the drawing surface are
    represented by a measuring function that gives the width and height of a
    text's bounding box in a given font. */
module Stitch {
  import opened Py

  // ---------------------------------------------------------------------
  // Gender replacement

  /** The replacements applied for "boy", in order. */
  const BoyPairs: seq<(string, string)> :=
    [("She", "He"), ("she", "he"), ("her", "his"), ("Her", "His"), ("girl", "boy"), ("Girl", "Boy")]

  /** The replacements applied for "girl", in order. */
  const GirlPairs: seq<(string, string)> :=
    [(" he ", " she "), (" He ", " She "), ("his", "her"), ("His", "Her"), ("boy", "girl"), ("Boy", "Girl")]

  /** `text.replace(p0, r0).replace(p1, r1)...` */
  function ReplaceAll(text: string, pairs: seq<(string, string)>): string
    decreases |pairs|
  {
    if pairs == [] then text else ReplaceAll(Replace(text, pairs[0].0, pairs[0].1), pairs[1..])
  }

  /** The gender replacement at the top of `stitch`. */
  function GenderSwap(text: string, gender: string): string {
    if gender == "boy" then ReplaceAll(text, BoyPairs)
    else if gender == "girl" then ReplaceAll(text, GirlPairs)
    else text
  }

  /** A chain of replacements none of whose patterns occurs leaves the text
      unchanged. */
  lemma {:induction false} ReplaceAllAbsent(text: string, pairs: seq<(string, string)>)
    requires forall i :: 0 <= i < |pairs| ==> pairs[i].0 != [] && !Contains(text, pairs[i].0)
    ensures ReplaceAll(text, pairs) == text
    decreases |pairs|
  {
    if pairs != [] {
      ReplaceAbsent(text, pairs[0].0, pairs[0].1);
      ReplaceAllAbsent(text, pairs[1..]);
    }
  }

  /** Any tag other than "boy" and "girl" leaves the text unchanged, and so
      does either tag on a text that holds none of its patterns. */
  lemma GenderSwapIdentity(text: string, gender: string)
    requires gender == "boy" ==> forall i :: 0 <= i < |BoyPairs| ==> !Contains(text, BoyPairs[i].0)
    requires gender == "girl" ==> forall i :: 0 <= i < |GirlPairs| ==> !Contains(text, GirlPairs[i].0)
    ensures GenderSwap(text, gender) == text
  {
    if gender == "boy" {
      ReplaceAllAbsent(text, BoyPairs);
    } else if gender == "girl" {
      ReplaceAllAbsent(text, GirlPairs);
    }
  }

  /** The replacements are applied one after another, so their order
      matters: for "boy", "herhe" becomes "hishe", and replacing again turns
      the new "she" into "he". The replacement is not idempotent. */
  lemma BoySwapNotIdempotent()
    ensures GenderSwap("herhe", "boy") == "hishe"
    ensures GenderSwap(GenderSwap("herhe", "boy"), "boy") == "hihe"
  {
    FirstBoySwap();
    SecondBoySwap();
  }

  lemma FirstBoySwap()
    ensures ReplaceAll("herhe", BoyPairs) == "hishe"
  {
    FirstBoySwapHead();
    HisheKeepsTail();
  }

  lemma FirstBoySwapHead()
    ensures ReplaceAll("herhe", BoyPairs) == ReplaceAll("hishe", BoyPairs[3..])
  {
    var ps := BoyPairs;
    LeadAbsent("herhe", "She");
    LeadAbsent("herhe", "she");
    ReplaceAbsent("herhe", "She", "He");
    ReplaceAbsent("herhe", "she", "he");
    HerReplaced();
    assert ReplaceAll("herhe", ps) == ReplaceAll("herhe", ps[1..]) by { assert ps[0] == ("She", "He"); }
    assert ReplaceAll("herhe", ps[1..]) == ReplaceAll("herhe", ps[2..]) by { assert ps[1..][0] == ("she", "he"); assert ps[1..][1..] == ps[2..]; }
    assert ReplaceAll("herhe", ps[2..]) == ReplaceAll("hishe", ps[3..]) by { assert ps[2..][0] == ("her", "his"); assert ps[2..][1..] == ps[3..]; }
  }

  /** None of "Her", "girl", "Girl" occurs in "hishe". */
  lemma HisheKeepsTail()
    ensures ReplaceAll("hishe", BoyPairs[3..]) == "hishe"
  {
    var tail := BoyPairs[3..];
    assert tail == [("Her", "His"), ("girl", "boy"), ("Girl", "Boy")];
    LeadAbsent("hishe", "Her");
    LeadAbsent("hishe", "girl");
    LeadAbsent("hishe", "Girl");
    ReplaceAllAbsent("hishe", tail);
  }

  lemma SecondBoySwap()
    ensures ReplaceAll("hishe", BoyPairs) == "hihe"
  {
    var ps := BoyPairs;
    LeadAbsent("hishe", "She");
    ReplaceAbsent("hishe", "She", "He");
    SheReplaced();
    HiheKeepsTail();
    assert ReplaceAll("hishe", ps) == ReplaceAll("hishe", ps[1..]) by { assert ps[0] == ("She", "He"); }
    assert ReplaceAll("hishe", ps[1..]) == ReplaceAll("hihe", ps[2..]) by { assert ps[1..][0] == ("she", "he"); assert ps[1..][1..] == ps[2..]; }
  }

  /** None of "her", "Her", "girl", "Girl" occurs in "hihe". */
  lemma HiheKeepsTail()
    ensures ReplaceAll("hihe", BoyPairs[2..]) == "hihe"
  {
    var tail := BoyPairs[2..];
    assert tail == [("her", "his"), ("Her", "His"), ("girl", "boy"), ("Girl", "Boy")];
    HerAbsentFromHihe();
    LeadAbsent("hihe", "Her");
    LeadAbsent("hihe", "girl");
    LeadAbsent("hihe", "Girl");
    ReplaceAllAbsent("hihe", tail);
  }

  /** A pattern whose first character does not occur is not contained. */
  lemma LeadAbsent(s: string, sub: string)
    requires sub != [] && sub[0] !in s
    ensures !Contains(s, sub)
  {
    ContainsAt(s, sub);
  }

  lemma HerAbsentFromHihe()
    ensures !Contains("hihe", "her")
  {
    ContainsAt("hihe", "her");
    assert !OccursAt("hihe", "her", 0) by { assert "hihe"[0..3][2] == 'h'; }
    assert !OccursAt("hihe", "her", 1) by { assert "hihe"[1..4][0] == 'i'; }
  }

  lemma HerReplaced()
    ensures Replace("herhe", "her", "his") == "hishe"
  {
    assert "herhe"[3..] == "he" && "he"[1..] == "e" && "e"[1..] == [];
    assert Replace("he", "her", "his") == "he";
  }

  lemma SheReplaced()
    ensures Replace("hishe", "she", "he") == "hihe"
  {
    assert "hishe"[1..] == "ishe" && "ishe"[1..] == "she" && "she"[3..] == [];
    assert Replace("she", "she", "he") == "he";
  }

  // ---------------------------------------------------------------------
  // HTMLTextParser

  /** One entry of `text_segments`: the stripped data and the open tags. */
  datatype Segment = Segment(text: string, styles: seq<string>)

  /** The callbacks `html.parser` makes while tokenising the caption. */
  datatype Event = StartTag(tag: string) | EndTag(tag: string) | Data(data: string)

  /** The parser's two fields as a value. */
  datatype ParseState = ParseState(segments: seq<Segment>, styles: seq<string>)

  /** The effect of one callback. */
  function Step(s: ParseState, e: Event): ParseState {
    match e
    case StartTag(t) => ParseState(s.segments, s.styles + [t])
    case EndTag(t) => if t in s.styles then ParseState(s.segments, RemoveFirst(s.styles, t)) else s
    case Data(d) => ParseState(s.segments + [Segment(Strip(d), s.styles)], s.styles)
  }

  /** The state after the callbacks `es`, from `s`. */
  function Feed(s: ParseState, es: seq<Event>): ParseState
    decreases |es|
  {
    if es == [] then s else Step(Feed(s, es[..|es| - 1]), es[|es| - 1])
  }

  /** Feeding in two parts is feeding once. */
  lemma {:induction false} FeedAppend(s: ParseState, es: seq<Event>, more: seq<Event>)
    ensures Feed(s, es + more) == Feed(Feed(s, es), more)
    decreases |more|
  {
    if more == [] {
      assert es + more == es;
    } else {
      var init := more[..|more| - 1];
      assert (es + more)[..|es + more| - 1] == es + init;
      FeedAppend(s, es, init);
    }
  }

  /** Segments are only ever appended: feeding more never changes one
      already recorded, since each records a copy of the open tags. */
  lemma {:induction false} FeedKeepsSegments(s: ParseState, es: seq<Event>)
    ensures s.segments <= Feed(s, es).segments
    decreases |es|
  {
    if es != [] {
      FeedKeepsSegments(s, es[..|es| - 1]);
    }
  }

  /** A segment recorded after `es` is the same after `es + more`. */
  lemma SegmentsAreSnapshots(s: ParseState, es: seq<Event>, more: seq<Event>)
    ensures Feed(s, es).segments <= Feed(s, es + more).segments
  {
    FeedAppend(s, es, more);
    FeedKeepsSegments(Feed(s, es), more);
  }

  /** An end tag removes the first matching open tag only, and one that is
      not open is ignored. */
  lemma EndTagEffect(s: ParseState, t: string)
    ensures t in s.styles ==>
      && |Step(s, EndTag(t)).styles| == |s.styles| - 1
      && multiset(Step(s, EndTag(t)).styles) == multiset(s.styles) - multiset{t}
    ensures t !in s.styles ==> Step(s, EndTag(t)) == s
    ensures Step(s, EndTag(t)).segments == s.segments
  {
    if t in s.styles {
      RemoveFirstCounts(s.styles, t);
    }
  }

  /** `HTMLTextParser`: its callbacks update `text_segments` and `current_styles`. */
  class HtmlTextParser {
    var textSegments: seq<Segment>
    var currentStyles: seq<string>

    constructor ()
      ensures textSegments == [] && currentStyles == []
    {
      textSegments := [];
      currentStyles := [];
    }

    function State(): ParseState
      reads this
    {
      ParseState(textSegments, currentStyles)
    }

    /** `handle_starttag`: the tag becomes open. */
    method HandleStartTag(tag: string)
      modifies this
      ensures currentStyles == old(currentStyles) + [tag]
      ensures textSegments == old(textSegments)
    {
      currentStyles := currentStyles + [tag];
    }

    /** `handle_endtag`: the first occurrence of an open tag is closed. */
    method HandleEndTag(tag: string)
      modifies this
      ensures currentStyles == if tag in old(currentStyles) then RemoveFirst(old(currentStyles), tag) else old(currentStyles)
      ensures textSegments == old(textSegments)
    {
      if tag in currentStyles {
        currentStyles := RemoveFirst(currentStyles, tag);
      }
    }

    /** `handle_data`: the stripped text with a copy of the open tags. */
    method HandleData(data: string)
      modifies this
      ensures textSegments == old(textSegments) + [Segment(Strip(data), old(currentStyles))]
      ensures currentStyles == old(currentStyles)
    {
      textSegments := textSegments + [Segment(Strip(data), currentStyles)];
    }

    /** `parser.feed(text); parser.close()`, given the callbacks the
        tokeniser makes. */
    method FeedEvents(es: seq<Event>)
      modifies this
      ensures State() == Feed(old(State()), es)
    {
      ghost var s0 := State();
      var k := 0;
      while k < |es|
        invariant 0 <= k <= |es|
        invariant State() == Feed(s0, es[..k])
      {
        assert es[..k + 1][..k] == es[..k];
        match es[k] {
          case StartTag(t) => HandleStartTag(t);
          case EndTag(t) => HandleEndTag(t);
          case Data(d) => HandleData(d);
        }
        k := k + 1;
      }
      assert es[..k] == es;
    }
  }

  // ---------------------------------------------------------------------
  // The font key

  /** The font chosen for a segment's open tags. */
  function FontKey(styles: seq<string>): (key: string)
    ensures key in {"regular", "bold", "italic", "bold_italic"}
  {
    if "strong" in styles && "em" in styles then "bold_italic"
    else if "strong" in styles then "bold"
    else if "em" in styles then "italic"
    else "regular"
  }

  /** The font depends only on whether `strong` and `em` are open, whatever
      else is open and in whatever order: bold exactly when `strong` is open,
      italic exactly when `em` is. */
  lemma FontKeyMeaning(styles: seq<string>)
    ensures (FontKey(styles) == "bold" || FontKey(styles) == "bold_italic") <==> "strong" in styles
    ensures (FontKey(styles) == "italic" || FontKey(styles) == "bold_italic") <==> "em" in styles
  {
  }

  /** Tags nested as `<strong>A<em>B</em>C</strong>` give the fonts bold,
      bold-italic and bold. */
  lemma NestedTagsExample()
    ensures
      var es := [StartTag("strong"), Data("A"), StartTag("em"), Data("B"), EndTag("em"), Data("C"), EndTag("strong")];
      var f := Feed(ParseState([], []), es);
      && f.segments == [Segment("A", ["strong"]), Segment("B", ["strong", "em"]), Segment("C", ["strong"])]
      && f.styles == []
      && FontKey(f.segments[0].styles) == "bold"
      && FontKey(f.segments[1].styles) == "bold_italic"
      && FontKey(f.segments[2].styles) == "bold"
  {
    var es1 := [StartTag("strong"), Data("A"), StartTag("em"), Data("B")];
    var es2 := [EndTag("em"), Data("C"), EndTag("strong")];
    assert es1 + es2 == [StartTag("strong"), Data("A"), StartTag("em"), Data("B"), EndTag("em"), Data("C"), EndTag("strong")];
    FeedAppend(ParseState([], []), es1, es2);
    NestedOpening();
    NestedClosing();
  }

  lemma NestedOpening()
    ensures Feed(ParseState([], []), [StartTag("strong"), Data("A"), StartTag("em"), Data("B")]) ==
      ParseState([Segment("A", ["strong"]), Segment("B", ["strong", "em"])], ["strong", "em"])
  {
    var es := [StartTag("strong"), Data("A"), StartTag("em"), Data("B")];
    var s0 := ParseState([], []);
    assert Strip("A") == "A" && Strip("B") == "B";
    assert es[..1][..0] == [] && es[..2][..1] == es[..1] && es[..3][..2] == es[..2] && es[..4][..3] == es[..3] && es[..4] == es;
    var s1 := ParseState([], ["strong"]);
    var s2 := ParseState([Segment("A", ["strong"])], ["strong"]);
    var s3 := ParseState([Segment("A", ["strong"])], ["strong", "em"]);
    assert Feed(s0, es[..1]) == s1;
    assert Feed(s0, es[..2]) == s2;
    assert Feed(s0, es[..3]) == s3;
  }

  lemma NestedClosing()
    ensures Feed(ParseState([Segment("A", ["strong"]), Segment("B", ["strong", "em"])], ["strong", "em"]),
                 [EndTag("em"), Data("C"), EndTag("strong")]) ==
      ParseState([Segment("A", ["strong"]), Segment("B", ["strong", "em"]), Segment("C", ["strong"])], [])
  {
    var es := [EndTag("em"), Data("C"), EndTag("strong")];
    var segs := [Segment("A", ["strong"]), Segment("B", ["strong", "em"])];
    var s0 := ParseState(segs, ["strong", "em"]);
    assert Strip("C") == "C";
    assert es[..1][..0] == [] && es[..2][..1] == es[..1] && es[..3][..2] == es[..2] && es[..3] == es;
    assert ["strong", "em"][1..] == ["em"];
    assert RemoveFirst(["strong", "em"], "em") == ["strong"];
    assert RemoveFirst(["strong"], "strong") == [];
    var s1 := ParseState(segs, ["strong"]);
    var s2 := ParseState(segs + [Segment("C", ["strong"])], ["strong"]);
    assert Feed(s0, es[..1]) == s1;
    assert Feed(s0, es[..2]) == s2;
    assert segs + [Segment("C", ["strong"])] == [Segment("A", ["strong"]), Segment("B", ["strong", "em"]), Segment("C", ["strong"])];
  }

  // ---------------------------------------------------------------------
  // wrap_text

  /** The bounding box of a text in a font: `bbox[2] - bbox[0]` and
      `bbox[3] - bbox[1]` of `draw.textbbox`. */
  datatype Extent = Extent(width: int, height: int)

  /** The width `wrap_text` measures with: the regular font. */
  function RegularWidth(measure: (string, string) -> Extent, s: string): int {
    measure(s, "regular").width
  }

  /** One entry of the list `wrap_text` returns. */
  datatype Line = Line(text: string, styles: seq<string>)

  /** The greedy grouping of `wrap_text`: `cur` holds the words of the line
      being built. A word joins it when the line with the word and a trailing
      space still fits, and otherwise starts the next line. */
  function Groups(words: seq<string>, cur: seq<string>, measure: (string, string) -> Extent, maxWidth: int)
    : seq<seq<string>>
    decreases |words|
  {
    if words == [] then (if cur == [] then [] else [cur])
    else
      var w := words[0];
      if RegularWidth(measure, Spaced(cur) + w + " ") <= maxWidth then Groups(words[1..], cur + [w], measure, maxWidth)
      else (if cur == [] then [] else [cur]) + Groups(words[1..], [w], measure, maxWidth)
  }

  /** The words of consecutive lines, one after another. */
  function Concat(gs: seq<seq<string>>): seq<string>
    decreases |gs|
  {
    if gs == [] then [] else gs[0] + Concat(gs[1..])
  }

  /** Every line met while extending `g` a word at a time, with its
      trailing space, is no wider than `maxWidth` (a one-word line is never
      measured against it). */
  ghost predicate Fits(g: seq<string>, measure: (string, string) -> Extent, maxWidth: int) {
    forall j :: 2 <= j <= |g| ==> RegularWidth(measure, Spaced(g[..j])) <= maxWidth
  }

  /** `wrap_text(text, max_width, fonts, draw)`. */
  function WrapLines(text: string, measure: (string, string) -> Extent, maxWidth: int): seq<Line> {
    JoinedLines(Groups(Split(text), [], measure, maxWidth))
  }

  /** One unstyled line per word group, its words joined by spaces. */
  function JoinedLines(gs: seq<seq<string>>): seq<Line> {
    seq(|gs|, i requires 0 <= i < |gs| => Line(Join(gs[i]), []))
  }

  lemma JoinedLinesStep(gs: seq<seq<string>>, g: seq<string>)
    ensures JoinedLines(gs + [g]) == JoinedLines(gs) + [Line(Join(g), [])]
  {
  }

  /** The grouping keeps every word, in order, and makes no empty line. */
  lemma {:induction false} GroupsKeepWords(words: seq<string>, cur: seq<string>,
                                           measure: (string, string) -> Extent, maxWidth: int)
    ensures Concat(Groups(words, cur, measure, maxWidth)) == cur + words
    ensures forall i :: 0 <= i < |Groups(words, cur, measure, maxWidth)| ==> Groups(words, cur, measure, maxWidth)[i] != []
    ensures |Groups(words, cur, measure, maxWidth)| <= |words| + (if cur == [] then 0 else 1)
    decreases |words|
  {
    if words == [] {
      assert cur + words == cur;
      if cur != [] {
        assert Concat([cur]) == cur + Concat([]);
      }
    } else {
      var w, rest := words[0], words[1..];
      assert words == [w] + rest;
      if RegularWidth(measure, Spaced(cur) + w + " ") <= maxWidth {
        GroupsKeepWords(rest, cur + [w], measure, maxWidth);
        assert cur + [w] + rest == cur + words;
      } else {
        GroupsKeepWords(rest, [w], measure, maxWidth);
        var tail := Groups(rest, [w], measure, maxWidth);
        if cur != [] {
          assert ([cur] + tail)[1..] == tail;
          assert Concat([cur] + tail) == cur + Concat(tail);
        } else {
          assert [] + tail == tail;
        }
        assert [w] + rest == words;
      }
    }
  }

  /** When the first word does not fit, the line being built (if any) is
      closed and the rest is grouped from that word. */
  lemma ShapeAfterBreak(words: seq<string>, cur: seq<string>, measure: (string, string) -> Extent, maxWidth: int)
    requires words != [] && RegularWidth(measure, Spaced(cur) + words[0] + " ") > maxWidth
    ensures var gs := Groups(words, cur, measure, maxWidth);
      var tail := Groups(words[1..], [words[0]], measure, maxWidth);
      && (cur == [] ==> gs == tail)
      && (cur != [] ==> |gs| == |tail| + 1 && gs[0] == cur && forall i :: 0 <= i < |tail| ==> gs[i + 1] == tail[i])
  {
    var tail := Groups(words[1..], [words[0]], measure, maxWidth);
    if cur == [] {
      assert [] + tail == tail;
    }
  }

  /** Every word of every line is a word of the grouped text. */
  lemma {:induction false} GroupsOfWords(words: seq<string>, cur: seq<string>,
                                         measure: (string, string) -> Extent, maxWidth: int)
    requires forall i :: 0 <= i < |words| ==> IsWord(words[i])
    requires forall i :: 0 <= i < |cur| ==> IsWord(cur[i])
    ensures var gs := Groups(words, cur, measure, maxWidth);
      forall i, j :: 0 <= i < |gs| && 0 <= j < |gs[i]| ==> IsWord(gs[i][j])
    decreases |words|
  {
    if words != [] {
      var w, rest := words[0], words[1..];
      if RegularWidth(measure, Spaced(cur) + w + " ") <= maxWidth {
        assert Groups(words, cur, measure, maxWidth) == Groups(rest, cur + [w], measure, maxWidth);
        GroupsOfWords(rest, cur + [w], measure, maxWidth);
      } else {
        GroupsOfWords(rest, [w], measure, maxWidth);
        ShapeAfterBreak(words, cur, measure, maxWidth);
      }
    }
  }

  /** Every line built from a fitting start fits. */
  lemma {:induction false} GroupsFit(words: seq<string>, cur: seq<string>,
                                     measure: (string, string) -> Extent, maxWidth: int)
    requires Fits(cur, measure, maxWidth)
    ensures var gs := Groups(words, cur, measure, maxWidth);
      forall i :: 0 <= i < |gs| ==> Fits(gs[i], measure, maxWidth)
    decreases |words|
  {
    if words != [] {
      var w, rest := words[0], words[1..];
      if RegularWidth(measure, Spaced(cur) + w + " ") <= maxWidth {
        var ext := cur + [w];
        forall j | 2 <= j <= |ext|
          ensures RegularWidth(measure, Spaced(ext[..j])) <= maxWidth
        {
          if j == |ext| {
            assert ext[..j] == cur + [w];
            SpacedAppend(cur, w);
          } else {
            assert ext[..j] == cur[..j];
          }
        }
        assert Groups(words, cur, measure, maxWidth) == Groups(rest, ext, measure, maxWidth);
        GroupsFit(rest, ext, measure, maxWidth);
      } else {
        GroupsFit(rest, [w], measure, maxWidth);
        ShapeAfterBreak(words, cur, measure, maxWidth);
      }
    }
  }

  /** The line being built opens the first line of the grouping. */
  lemma {:induction false} GroupsStartWith(words: seq<string>, cur: seq<string>,
                                           measure: (string, string) -> Extent, maxWidth: int)
    requires cur != []
    ensures var gs := Groups(words, cur, measure, maxWidth);
      gs != [] && |cur| <= |gs[0]| && gs[0][..|cur|] == cur
    decreases |words|
  {
    if words != [] {
      var w, rest := words[0], words[1..];
      if RegularWidth(measure, Spaced(cur) + w + " ") <= maxWidth {
        GroupsStartWith(rest, cur + [w], measure, maxWidth);
        var g := Groups(rest, cur + [w], measure, maxWidth)[0];
        assert g[..|cur|] == g[..|cur| + 1][..|cur|];
      }
    }
  }

  /** Line `i + 1` starts with a word that did not fit at the end of line `i`. */
  ghost predicate BrokenAt(gs: seq<seq<string>>, i: int, measure: (string, string) -> Extent, maxWidth: int)
    requires 0 <= i < |gs| - 1
  {
    gs[i + 1] != [] && RegularWidth(measure, Spaced(gs[i]) + gs[i + 1][0] + " ") > maxWidth
  }

  /** The wrap is greedy: the first word of each line did not fit at the end
      of the line before it. */
  lemma {:induction false} GroupsGreedy(words: seq<string>, cur: seq<string>,
                                        measure: (string, string) -> Extent, maxWidth: int)
    ensures var gs := Groups(words, cur, measure, maxWidth);
      forall i :: 0 <= i < |gs| - 1 ==> BrokenAt(gs, i, measure, maxWidth)
    decreases |words|
  {
    if words != [] {
      var w, rest := words[0], words[1..];
      if RegularWidth(measure, Spaced(cur) + w + " ") <= maxWidth {
        assert Groups(words, cur, measure, maxWidth) == Groups(rest, cur + [w], measure, maxWidth);
        GroupsGreedy(rest, cur + [w], measure, maxWidth);
      } else {
        GroupsGreedy(rest, [w], measure, maxWidth);
        GroupsStartWith(rest, [w], measure, maxWidth);
        var tail := Groups(rest, [w], measure, maxWidth);
        assert tail[0][..1] == [w];
        if cur != [] {
          var gs := [cur] + tail;
          assert gs == Groups(words, cur, measure, maxWidth);
          forall i | 0 <= i < |gs| - 1
            ensures BrokenAt(gs, i, measure, maxWidth)
          {
            if i > 0 {
              assert gs[i] == tail[i - 1] && gs[i + 1] == tail[i];
              assert BrokenAt(tail, i - 1, measure, maxWidth);
            }
          }
        } else {
          assert [] + tail == tail;
        }
      }
    }
  }

  lemma {:induction false} SpacedConcat(a: seq<string>, b: seq<string>)
    ensures Spaced(a + b) == Spaced(a) + Spaced(b)
    decreases |a|
  {
    if a == [] {
      assert a + b == b;
    } else {
      assert (a + b)[1..] == a[1..] + b;
      SpacedConcat(a[1..], b);
    }
  }

  /** When a longer text is never narrower than a part of it, a word too wide
      for a line on its own still forms a line, alone. */
  lemma WideWordAlone(g: seq<string>, j: int, measure: (string, string) -> Extent, maxWidth: int)
    requires forall a, b :: RegularWidth(measure, a) <= RegularWidth(measure, a + b) &&
                            RegularWidth(measure, b) <= RegularWidth(measure, a + b)
    requires Fits(g, measure, maxWidth) && 0 <= j < |g|
    requires RegularWidth(measure, g[j] + " ") > maxWidth
    ensures g == [g[j]]
  {
    if |g| >= 2 {
      var k := if j + 1 >= 2 then j + 1 else 2;
      assert g[..k] == g[..j] + [g[j]] + g[j + 1..k];
      SpacedConcat(g[..j] + [g[j]], g[j + 1..k]);
      SpacedConcat(g[..j], [g[j]]);
    }
  }

  /** The lines `wrap_text` returns, as the word groups they were joined from. */
  lemma WrapLinesGroups(text: string, measure: (string, string) -> Extent, maxWidth: int)
    ensures var lines := WrapLines(text, measure, maxWidth);
      var gs := Groups(Split(text), [], measure, maxWidth);
      && |lines| == |gs|
      && forall i :: 0 <= i < |gs| ==>
           gs[i] != [] && Split(lines[i].text) == gs[i] && lines[i].text == Join(gs[i]) && lines[i].styles == []
  {
    var words := Split(text);
    var gs := Groups(words, [], measure, maxWidth);
    var lines := WrapLines(text, measure, maxWidth);
    GroupsKeepWords(words, [], measure, maxWidth);
    GroupsOfWords(words, [], measure, maxWidth);
    forall i | 0 <= i < |gs|
      ensures Split(lines[i].text) == gs[i]
    {
      SplitJoin(gs[i]);
    }
  }

  /** The words of the lines `wrap_text` returns. */
  function LineWords(lines: seq<Line>): seq<seq<string>> {
    seq(|lines|, i requires 0 <= i < |lines| => Split(lines[i].text))
  }

  /** `wrap_text` keeps the words: its lines hold the words of the text, in
      order, each line the words of a group joined by single spaces, so that
      no word is split and no line is empty; there are at most as many lines
      as words, none exactly when the text has no words, and every style list
      is empty. */
  lemma WrapLinesKeepWords(text: string, measure: (string, string) -> Extent, maxWidth: int)
    ensures var lines := WrapLines(text, measure, maxWidth);
      var words := Split(text);
      && |lines| <= |words|
      && (lines == [] <==> words == [])
      && Concat(LineWords(lines)) == words
      && forall i :: 0 <= i < |lines| ==>
           && lines[i].styles == []
           && Split(lines[i].text) != []
           && lines[i].text == Join(Split(lines[i].text))
  {
    var words := Split(text);
    var gs := Groups(words, [], measure, maxWidth);
    var lines := WrapLines(text, measure, maxWidth);
    GroupsKeepWords(words, [], measure, maxWidth);
    WrapLinesGroups(text, measure, maxWidth);
    assert LineWords(lines) == gs;
    assert [] + words == words;
  }

  /** Line `i + 1` begins with a word that, with a space, did not fit after
      line `i` and its trailing space. */
  ghost predicate LineBrokenAt(lines: seq<Line>, i: int, measure: (string, string) -> Extent, maxWidth: int)
    requires 0 <= i < |lines| - 1
  {
    Split(lines[i + 1].text) != [] &&
    RegularWidth(measure, lines[i].text + " " + Split(lines[i + 1].text)[0] + " ") > maxWidth
  }

  /** `wrap_text` is greedy: every line fits once extended, and each line's
      first word did not fit at the end of the line before it. */
  lemma WrapLinesGreedy(text: string, measure: (string, string) -> Extent, maxWidth: int)
    ensures var lines := WrapLines(text, measure, maxWidth);
      && (forall i :: 0 <= i < |lines| ==> Fits(Split(lines[i].text), measure, maxWidth))
      && (forall i :: 0 <= i < |lines| - 1 ==> LineBrokenAt(lines, i, measure, maxWidth))
  {
    var words := Split(text);
    var gs := Groups(words, [], measure, maxWidth);
    var lines := WrapLines(text, measure, maxWidth);
    WrapLinesGroups(text, measure, maxWidth);
    GroupsFit(words, [], measure, maxWidth);
    GroupsGreedy(words, [], measure, maxWidth);
    forall i | 0 <= i < |lines| - 1
      ensures LineBrokenAt(lines, i, measure, maxWidth)
    {
      assert BrokenAt(gs, i, measure, maxWidth);
      SpacedIsJoinPlusSpace(gs[i]);
    }
  }

  /** One step of the grouping from word `k` on: the word joins the current
      line when it fits, and otherwise that line is closed and the word starts
      the next one. */
  lemma GroupsUnfold(words: seq<string>, k: int, cur: seq<string>, measure: (string, string) -> Extent, maxWidth: int)
    requires 0 <= k < |words|
    ensures RegularWidth(measure, Spaced(cur) + words[k] + " ") <= maxWidth ==>
      Groups(words[k..], cur, measure, maxWidth) == Groups(words[k + 1..], cur + [words[k]], measure, maxWidth)
    ensures RegularWidth(measure, Spaced(cur) + words[k] + " ") > maxWidth ==>
      Groups(words[k..], cur, measure, maxWidth) ==
        (if cur == [] then [] else [cur]) + Groups(words[k + 1..], [words[k]], measure, maxWidth)
  {
    assert words[k..][0] == words[k] && words[k..][1..] == words[k + 1..];
  }

  /** Closing the current line moves it from the pending groups to the
      finished ones; an empty current line is dropped. */
  lemma CloseLine<T>(done: seq<seq<T>>, cur: seq<T>, tail: seq<seq<T>>, gs: seq<seq<T>>)
    requires done + ((if cur == [] then [] else [cur]) + tail) == gs
    ensures cur != [] ==> (done + [cur]) + tail == gs
    ensures cur == [] ==> done + tail == gs
  {
    if cur != [] {
      assert (done + [cur]) + tail == done + ([cur] + tail);
    } else {
      assert [] + tail == tail;
    }
  }

  /** Closing a non-empty current line: its running text, stripped, is its
      words joined by spaces, and it becomes the next finished line. */
  lemma FinishLine(done: seq<seq<string>>, cur: seq<string>)
    requires forall i :: 0 <= i < |cur| ==> IsWord(cur[i])
    ensures Spaced(cur) == "" <==> cur == []
    ensures cur != [] ==>
      JoinedLines(done) + [Line(Strip(Spaced(cur)), [])] == JoinedLines(done + [cur])
  {
    if cur != [] {
      assert |Spaced(cur)| >= 1;
      StripSpaced(cur);
      JoinedLinesStep(done, cur);
    }
  }

  /** The grouping after word `k` when it fits on the current line. */
  lemma WordFits(words: seq<string>, k: int, done: seq<seq<string>>, cur: seq<string>,
                 gs: seq<seq<string>>, measure: (string, string) -> Extent, maxWidth: int)
    requires 0 <= k < |words|
    requires done + Groups(words[k..], cur, measure, maxWidth) == gs
    requires RegularWidth(measure, Spaced(cur) + words[k] + " ") <= maxWidth
    ensures done + Groups(words[k + 1..], cur + [words[k]], measure, maxWidth) == gs
    ensures Spaced(cur + [words[k]]) == Spaced(cur) + words[k] + " "
  {
    GroupsUnfold(words, k, cur, measure, maxWidth);
    SpacedAppend(cur, words[k]);
  }

  /** The grouping after word `k` when it does not fit: the current line, if
      any, is finished and the word starts the next one. */
  lemma WordBreaks(words: seq<string>, k: int, done: seq<seq<string>>, cur: seq<string>,
                   gs: seq<seq<string>>, measure: (string, string) -> Extent, maxWidth: int)
    requires 0 <= k < |words|
    requires done + Groups(words[k..], cur, measure, maxWidth) == gs
    requires RegularWidth(measure, Spaced(cur) + words[k] + " ") > maxWidth
    ensures cur != [] ==> (done + [cur]) + Groups(words[k + 1..], [words[k]], measure, maxWidth) == gs
    ensures cur == [] ==> done + Groups(words[k + 1..], [words[k]], measure, maxWidth) == gs
  {
    GroupsUnfold(words, k, cur, measure, maxWidth);
    CloseLine(done, cur, Groups(words[k + 1..], [words[k]], measure, maxWidth), gs);
  }

  /** `wrap_text`: the greedy loop over `text.split()`. */
  method WrapText(text: string, maxWidth: int, measure: (string, string) -> Extent) returns (lines: seq<Line>)
    ensures lines == WrapLines(text, measure, maxWidth)
  {
    var words := Split(text);
    ghost var gs := Groups(words, [], measure, maxWidth);
    lines := [];
    var currentLine := "";
    var currentStyles: seq<string> := [];
    ghost var cur: seq<string> := [];
    ghost var done: seq<seq<string>> := [];
    var k := 0;
    assert words[0..] == words;
    while k < |words|
      invariant 0 <= k <= |words|
      invariant currentLine == Spaced(cur) && currentStyles == []
      invariant forall i :: 0 <= i < |cur| ==> IsWord(cur[i])
      invariant lines == JoinedLines(done)
      invariant done + Groups(words[k..], cur, measure, maxWidth) == gs
    {
      var word := words[k];
      var testLine := currentLine + word + " ";
      if RegularWidth(measure, testLine) <= maxWidth {
        WordFits(words, k, done, cur, gs, measure, maxWidth);
        currentLine := testLine;
        cur := cur + [word];
      } else {
        WordBreaks(words, k, done, cur, gs, measure, maxWidth);
        FinishLine(done, cur);
        if currentLine != "" {
          lines := lines + [Line(Strip(currentLine), currentStyles)];
          done := done + [cur];
        }
        currentLine := word + " ";
        currentStyles := [];
        cur := [word];
      }
      k := k + 1;
    }
    FinishLine(done, cur);
    if currentLine != "" {
      lines := lines + [Line(Strip(currentLine), currentStyles)];
      done := done + [cur];
    } else {
      assert done + [] == done;
    }
  }

  // ---------------------------------------------------------------------
  // The layout of `stitch`

  /** `position[0]`, `position[1]` and `padding`. */
  const Position := 10
  const Padding := 10

  /** `max_width = original_image.width - position[0] - padding - 10`. */
  function MaxWidth(imageWidth: int): int {
    imageWidth - Position - Padding - 10
  }

  /** A wrapped line with the font chosen for its segment. */
  datatype StyledLine = StyledLine(text: string, font: string)

  /** Wrapped lines paired with one font. */
  function Styled(ls: seq<Line>, font: string): (r: seq<StyledLine>)
    ensures |r| == |ls|
  {
    seq(|ls|, i requires 0 <= i < |ls| => StyledLine(ls[i].text, font))
  }

  lemma StyledStep(ls: seq<Line>, font: string, j: int)
    requires 0 <= j < |ls|
    ensures Styled(ls[..j + 1], font) == Styled(ls[..j], font) + [StyledLine(ls[j].text, font)]
  {
  }

  /** The lines of one parsed segment; an empty segment gives none. */
  function SegmentLines(seg: Segment, maxWidth: int, measure: (string, string) -> Extent): seq<StyledLine> {
    if seg.text == [] then []
    else Styled(WrapLines(seg.text, measure, maxWidth), FontKey(seg.styles))
  }

  /** `lines_with_styles` after the segments `segs`. */
  function AllLines(segs: seq<Segment>, maxWidth: int, measure: (string, string) -> Extent): seq<StyledLine>
    decreases |segs|
  {
    if segs == [] then []
    else AllLines(segs[..|segs| - 1], maxWidth, measure) + SegmentLines(segs[|segs| - 1], maxWidth, measure)
  }

  function LineHeight(l: StyledLine, measure: (string, string) -> Extent): int {
    measure(l.text, l.font).height
  }

  function LineWidth(l: StyledLine, measure: (string, string) -> Extent): int {
    measure(l.text, l.font).width
  }

  /** The sum of `line_height + 5` over `ls`. */
  function Advance(ls: seq<StyledLine>, measure: (string, string) -> Extent): int
    decreases |ls|
  {
    if ls == [] then 0 else Advance(ls[..|ls| - 1], measure) + LineHeight(ls[|ls| - 1], measure) + 5
  }

  /** `text_width`: the widest line, and zero when there is none. */
  function WidestLine(ls: seq<StyledLine>, measure: (string, string) -> Extent): (m: int)
    ensures m >= 0
    ensures forall i :: 0 <= i < |ls| ==> LineWidth(ls[i], measure) <= m
    ensures m == 0 || exists i :: 0 <= i < |ls| && LineWidth(ls[i], measure) == m
    decreases |ls|
  {
    if ls == [] then 0
    else
      var m := WidestLine(ls[..|ls| - 1], measure);
      var w := LineWidth(ls[|ls| - 1], measure);
      assert forall i :: 0 <= i < |ls| - 1 ==> ls[..|ls| - 1][i] == ls[i];
      if m >= w then m else w
  }

  /** `text_height = max(text_height - 5, 0)`. */
  function TextHeight(ls: seq<StyledLine>, measure: (string, string) -> Extent): int {
    var h := Advance(ls, measure) - 5;
    if h >= 0 then h else 0
  }

  /** A line drawn on the new image: `draw.text((position[0], y), line, font=font)`. */
  datatype Placed = Placed(text: string, font: string, x: int, y: int)

  /** The image `stitch` saves: its size, the white background rectangle of the
      caption, the drawn lines, and where the original image is pasted. */
  datatype Canvas = Canvas(width: int, height: int, background: (int, int, int, int),
                           placed: seq<Placed>, pasteY: int)

  /** The drawn lines: the first at `y = position[1]`, each next one
      `line_height + 5` lower. */
  function Placements(ls: seq<StyledLine>, measure: (string, string) -> Extent): seq<Placed> {
    seq(|ls|, k requires 0 <= k < |ls| => Placed(ls[k].text, ls[k].font, Position, Position + Advance(ls[..k], measure)))
  }

  /** The image for the lines `ls` over an original image of the given size. */
  function CanvasOf(ls: seq<StyledLine>, imageWidth: int, imageHeight: int,
                    measure: (string, string) -> Extent): Canvas {
    var th := TextHeight(ls, measure);
    Canvas(imageWidth, th + 2 * Padding + imageHeight,
           (Position - Padding, Position - Padding,
            Position + WidestLine(ls, measure) + Padding, Position + th + Padding),
           Placements(ls, measure),
           th + 2 * Padding)
  }

  /** The image for the parsed segments `segs`. */
  function Composed(segs: seq<Segment>, imageWidth: int, imageHeight: int,
                    measure: (string, string) -> Extent): Canvas {
    CanvasOf(AllLines(segs, MaxWidth(imageWidth), measure), imageWidth, imageHeight, measure)
  }

  lemma AdvanceStep(ls: seq<StyledLine>, measure: (string, string) -> Extent, k: int)
    requires 0 <= k < |ls|
    ensures Advance(ls[..k + 1], measure) == Advance(ls[..k], measure) + LineHeight(ls[k], measure) + 5
  {
    assert ls[..k + 1][..k] == ls[..k];
  }

  /** With no line taller than it is, the advance of a prefix is at most
      the advance of the whole. */
  lemma {:induction false} AdvanceMonotone(ls: seq<StyledLine>, measure: (string, string) -> Extent, k: int)
    requires forall i :: 0 <= i < |ls| ==> LineHeight(ls[i], measure) >= 0
    requires 0 <= k <= |ls|
    ensures Advance(ls[..k], measure) <= Advance(ls, measure)
    decreases |ls| - k
  {
    if k < |ls| {
      AdvanceStep(ls, measure, k);
      AdvanceMonotone(ls, measure, k + 1);
    } else {
      assert ls[..k] == ls;
    }
  }

  lemma {:induction false} AdvanceNonNegative(ls: seq<StyledLine>, measure: (string, string) -> Extent)
    requires forall i :: 0 <= i < |ls| ==> LineHeight(ls[i], measure) >= 0
    ensures Advance(ls, measure) >= 0
    decreases |ls|
  {
    if ls != [] {
      AdvanceNonNegative(ls[..|ls| - 1], measure);
    }
  }

  /** The line offsets: `y` starts at 10 and grows by `line_height + 5`. */
  lemma PlacementsStep(ls: seq<StyledLine>, measure: (string, string) -> Extent)
    ensures var ps := Placements(ls, measure);
      && |ps| == |ls|
      && (|ls| > 0 ==> ps[0].y == 10)
      && (forall k :: 0 <= k < |ls| ==> ps[k].x == 10 && ps[k].text == ls[k].text && ps[k].font == ls[k].font)
      && (forall k :: 0 <= k < |ls| - 1 ==> ps[k + 1].y == ps[k].y + LineHeight(ls[k], measure) + 5)
  {
    var ps := Placements(ls, measure);
    forall k | 0 <= k < |ls| - 1
      ensures ps[k + 1].y == ps[k].y + LineHeight(ls[k], measure) + 5
    {
      AdvanceStep(ls, measure, k);
    }
  }

  /** With non-negative line heights, each line is drawn inside the caption
      area: at or below its top and ending at least `padding` above its bottom. */
  lemma PlacementsInside(ls: seq<StyledLine>, measure: (string, string) -> Extent)
    requires forall i :: 0 <= i < |ls| ==> LineHeight(ls[i], measure) >= 0
    ensures var ps := Placements(ls, measure);
      forall k :: 0 <= k < |ls| ==>
        10 <= ps[k].y && ps[k].y + LineHeight(ls[k], measure) <= 10 + TextHeight(ls, measure)
  {
    var ps := Placements(ls, measure);
    forall k | 0 <= k < |ls|
      ensures 10 <= ps[k].y && ps[k].y + LineHeight(ls[k], measure) <= 10 + TextHeight(ls, measure)
    {
      AdvanceStep(ls, measure, k);
      AdvanceMonotone(ls, measure, k + 1);
      assert forall i :: 0 <= i < k ==> ls[..k][i] == ls[i];
      AdvanceNonNegative(ls[..k], measure);
    }
  }

  /** The frame of the image `stitch` builds for the measured lines `ls`:
      the canvas is the caption height plus 20 plus the original image's
      height, the original image is pasted right under the caption area, and
      the background rectangle spans from the corner to 20 beyond the widest
      line and the caption height. */
  lemma CanvasFrame(ls: seq<StyledLine>, imageWidth: int, imageHeight: int, measure: (string, string) -> Extent)
    ensures var c := CanvasOf(ls, imageWidth, imageHeight, measure);
      && c.width == imageWidth
      && c.height == c.pasteY + imageHeight
      && c.pasteY == TextHeight(ls, measure) + 20
      && c.background == (0, 0, 20 + WidestLine(ls, measure), 20 + TextHeight(ls, measure))
      && c.placed == Placements(ls, measure)
  {
    var c := CanvasOf(ls, imageWidth, imageHeight, measure);
    var w, th := WidestLine(ls, measure), TextHeight(ls, measure);
    assert c.background == (0, 0, 20 + w, 20 + th);
  }

  /** With non-negative line heights every drawn line lies inside the
      background rectangle, `padding` clear of its edges. */
  lemma CanvasLinesInside(ls: seq<StyledLine>, imageWidth: int, imageHeight: int, measure: (string, string) -> Extent)
    requires forall i :: 0 <= i < |ls| ==> LineHeight(ls[i], measure) >= 0
    ensures var c := CanvasOf(ls, imageWidth, imageHeight, measure);
      && |c.placed| == |ls|
      && forall k :: 0 <= k < |ls| ==>
           && c.background.1 + Padding <= c.placed[k].y
           && c.placed[k].y + LineHeight(ls[k], measure) + Padding <= c.background.3
           && c.placed[k].x + LineWidth(ls[k], measure) + Padding <= c.background.2
  {
    CanvasFrame(ls, imageWidth, imageHeight, measure);
    PlacementsInside(ls, measure);
    PlacementsStep(ls, measure);
  }

  /** Empty segments are skipped: a caption whose segments are all empty
      draws nothing, and the original image sits 20 below the top. */
  lemma {:induction false} EmptySegmentsSkipped(segs: seq<Segment>, maxWidth: int, measure: (string, string) -> Extent)
    requires forall i :: 0 <= i < |segs| ==> segs[i].text == []
    ensures AllLines(segs, maxWidth, measure) == []
    decreases |segs|
  {
    if segs != [] {
      EmptySegmentsSkipped(segs[..|segs| - 1], maxWidth, measure);
    }
  }

  /** A non-empty segment contributes exactly the wrapped lines of its text,
      all in the font its open tags choose. */
  lemma SegmentLinesMeaning(segs: seq<Segment>, maxWidth: int, measure: (string, string) -> Extent)
    requires segs != []
    ensures var seg := segs[|segs| - 1];
      var added := SegmentLines(seg, maxWidth, measure);
      && AllLines(segs, maxWidth, measure) == AllLines(segs[..|segs| - 1], maxWidth, measure) + added
      && (seg.text != [] ==>
            && |added| == |WrapLines(seg.text, measure, maxWidth)|
            && forall i :: 0 <= i < |added| ==>
                 added[i].text == WrapLines(seg.text, measure, maxWidth)[i].text && added[i].font == FontKey(seg.styles))
  {
  }

  /** One more line adds its height plus 5 and may widen the widest line. */
  lemma AppendLine(ls: seq<StyledLine>, l: StyledLine, measure: (string, string) -> Extent)
    ensures Advance(ls + [l], measure) == Advance(ls, measure) + LineHeight(l, measure) + 5
    ensures WidestLine(ls + [l], measure) ==
      if WidestLine(ls, measure) >= LineWidth(l, measure) then WidestLine(ls, measure) else LineWidth(l, measure)
  {
    assert (ls + [l])[..|ls|] == ls;
  }

  /** The inner measuring loop of `stitch` for one non-empty segment: each
      wrapped line is measured in the segment's font and kept with it. */
  method MeasureSegment(seg: Segment, maxWidth: int, measure: (string, string) -> Extent,
                        linesIn: seq<StyledLine>, heightIn: int, widthIn: int)
      returns (lines: seq<StyledLine>, height: int, width: int)
    requires seg.text != []
    requires heightIn == Advance(linesIn, measure) && widthIn == WidestLine(linesIn, measure)
    ensures lines == linesIn + SegmentLines(seg, maxWidth, measure)
    ensures height == Advance(lines, measure) && width == WidestLine(lines, measure)
  {
    var wrapped := WrapText(seg.text, maxWidth, measure);
    lines, height, width := StyleLines(wrapped, FontKey(seg.styles), measure, linesIn, heightIn, widthIn);
  }

  /** The body of that loop over already wrapped lines: the running height
      grows by each line's height plus 5 and the running width is the widest
      line so far. */
  method StyleLines(wrapped: seq<Line>, font: string, measure: (string, string) -> Extent,
                    linesIn: seq<StyledLine>, heightIn: int, widthIn: int)
      returns (lines: seq<StyledLine>, height: int, width: int)
    requires heightIn == Advance(linesIn, measure) && widthIn == WidestLine(linesIn, measure)
    ensures lines == linesIn + Styled(wrapped, font)
    ensures height == Advance(lines, measure) && width == WidestLine(lines, measure)
  {
    lines, height, width := linesIn, heightIn, widthIn;
    var j := 0;
    while j < |wrapped|
      invariant 0 <= j <= |wrapped|
      invariant lines == linesIn + Styled(wrapped[..j], font)
      invariant height == Advance(lines, measure) && width == WidestLine(lines, measure)
    {
      var l := StyledLine(wrapped[j].text, font);
      var e := measure(l.text, l.font);
      AppendLine(lines, l, measure);
      StyledStep(wrapped, font, j);
      width := if width >= e.width then width else e.width;
      height := height + e.height + 5;
      lines := lines + [l];
      j := j + 1;
    }
    assert wrapped[..j] == wrapped;
  }

  lemma AllLinesStep(segs: seq<Segment>, i: int, maxWidth: int, measure: (string, string) -> Extent)
    requires 0 <= i < |segs|
    ensures AllLines(segs[..i + 1], maxWidth, measure) ==
      AllLines(segs[..i], maxWidth, measure) + SegmentLines(segs[i], maxWidth, measure)
  {
    assert segs[..i + 1][..i] == segs[..i];
  }

  /** The measuring loop of `stitch` over the parsed segments. */
  method MeasureLines(segs: seq<Segment>, maxWidth: int, measure: (string, string) -> Extent)
      returns (lines: seq<StyledLine>, height: int, width: int)
    ensures lines == AllLines(segs, maxWidth, measure)
    ensures height == Advance(lines, measure) && width == WidestLine(lines, measure)
  {
    lines, height, width := [], 0, 0;
    var i := 0;
    while i < |segs|
      invariant 0 <= i <= |segs|
      invariant lines == AllLines(segs[..i], maxWidth, measure)
      invariant height == Advance(lines, measure) && width == WidestLine(lines, measure)
    {
      var seg := segs[i];
      AllLinesStep(segs, i, maxWidth, measure);
      if seg.text != [] {
        lines, height, width := MeasureSegment(seg, maxWidth, measure, lines, height, width);
      } else {
        assert lines + [] == lines;
      }
      i := i + 1;
    }
    assert segs[..i] == segs;
  }

  /** The drawing loop of `stitch`, with its `y` cursor. */
  method DrawLines(lines: seq<StyledLine>, measure: (string, string) -> Extent) returns (placed: seq<Placed>)
    ensures placed == Placements(lines, measure)
  {
    placed := [];
    var y := Position;
    var k := 0;
    while k < |lines|
      invariant 0 <= k <= |lines|
      invariant y == Position + Advance(lines[..k], measure)
      invariant placed == Placements(lines[..k], measure)
    {
      var l := lines[k];
      AdvanceStep(lines, measure, k);
      assert forall n :: 0 <= n <= k ==> lines[..k + 1][..n] == lines[..n] && lines[..k][..n] == lines[..n];
      placed := placed + [Placed(l.text, l.font, Position, y)];
      y := y + measure(l.text, l.font).height + 5;
      k := k + 1;
    }
    assert lines[..k] == lines;
  }

  /** `stitch` after parsing: measure, size the canvas, draw. */
  method Compose(segs: seq<Segment>, imageWidth: int, imageHeight: int, measure: (string, string) -> Extent)
      returns (c: Canvas)
    ensures c == Composed(segs, imageWidth, imageHeight, measure)
  {
    var lines, textHeight, textWidth := MeasureLines(segs, MaxWidth(imageWidth), measure);
    c := Layout(lines, textHeight, textWidth, imageWidth, imageHeight, measure);
  }

  /** The sizing and drawing part of `stitch`, given the measured lines. */
  method Layout(lines: seq<StyledLine>, height: int, width: int, imageWidth: int, imageHeight: int,
                measure: (string, string) -> Extent) returns (c: Canvas)
    requires height == Advance(lines, measure) && width == WidestLine(lines, measure)
    ensures c == CanvasOf(lines, imageWidth, imageHeight, measure)
  {
    var textHeight := if height - 5 >= 0 then height - 5 else 0;
    var totalHeight := textHeight + 2 * Padding + imageHeight;
    var background := (Position - Padding, Position - Padding, Position + width + Padding, Position + textHeight + Padding);
    var placed := DrawLines(lines, measure);
    c := Canvas(imageWidth, totalHeight, background, placed, textHeight + 2 * Padding);
  }

  /** `stitch(image, text, gender)`: the replacement, the parser fed with the
      callbacks `tokenize` gives for the replaced text, and the layout. */
  method StitchCaption(imageWidth: int, imageHeight: int, text: string, gender: string,
                       tokenize: string -> seq<Event>, measure: (string, string) -> Extent)
      returns (c: Canvas)
    ensures c == Composed(Feed(ParseState([], []), tokenize(GenderSwap(text, gender))).segments,
                          imageWidth, imageHeight, measure)
  {
    var swapped := GenderSwap(text, gender);
    var parser := new HtmlTextParser();
    parser.FeedEvents(tokenize(swapped));
    c := Compose(parser.textSegments, imageWidth, imageHeight, measure);
  }
}
