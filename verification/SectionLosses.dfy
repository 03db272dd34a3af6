/** Exactly when a section of the memory file holds its content after it has been written. */
module SectionLosses {
  import opened MarkdownMemory
  import opened MarkdownSections
  import opened SectionContents
  import opened WritingTwice

  /** The section has at least as many bodies as before, and they begin with an empty line and the
      content. */
  ghost predicate HoldsAfter(t: Text, section: string, content: Text, date: string)
    requires t != []
  {
    var b, n := Bodies(Write(t, section, content, date), Header(section)), |Bodies(t, Header(section))|;
    n <= |b| && forall i | 0 <= i < n :: [""] + content <= b[i]
  }

  /** The content ends with the very stamp that would be put at its last mark, or with that and an empty
      line. */
  ghost predicate EndsInStamp(content: Text, date: string) {
    var m := LastMark(content);
    m >= 0 && content[m] == StampLine(content[m], date) &&
    (m + 1 == |content| || (m + 2 == |content| && content[m + 1] == ""))
  }

  /** The last stamp stands behind the section; or it stands in the content, which ends in it; or there
      is none. */
  ghost predicate ContentSurvives(t: Text, header: string, content: Text, date: string)
    requires HasHeader(t, header)
  {
    if !NoMark(Tail(t, header)) then true
    else if !NoMark(content) then EndsInStamp(content, date)
    else NoMark(Outside(t, header, false))
  }

  // ----- a stamp in the content

  lemma CutContent(content: Text, m: nat, l: string)
    requires m < |content|
    ensures [""] + content <= Body(content)[..m + 1] + [l, ""] <==>
      content[m] == l && (m + 1 == |content| || (m + 2 == |content| && content[m + 1] == ""))
  {
    var a, p := [""] + content, Body(content)[..m + 1] + [l, ""];
    assert p[m + 1] == l && p[m + 2] == "" && |p| == m + 3;
    assert a[m + 1] == content[m] && (m + 2 < |a| ==> a[m + 2] == content[m + 1]);
    assert forall i | 0 <= i <= m :: p[i] == a[i];
  }

  lemma HoldsBodies(init: seq<Text>, p: Text, content: Text)
    requires AllHold(init, content)
    ensures (forall i | 0 <= i < |init| + 1 :: [""] + content <= (init + [p])[i]) <==> [""] + content <= p
  {
    var b := init + [p];
    assert b[|init|] == p && [""] + content <= Body(content);
    assert forall i | 0 <= i < |init| :: b[i] == Body(content);
  }

  /** The content is cut at its last mark. */
  lemma ContentCut(t: Text, section: string, content: Text, date: string)
    requires HasHeader(t, Header(section)) && NoHeadings(content)
    requires NoMark(Tail(t, Header(section))) && !NoMark(content)
    ensures t != [] && (HoldsAfter(t, section, content, date) <==> EndsInStamp(content, date))
  {
    hide Bodies, HasHeader, Tail, Closing, Written, Rewrite, Outside, Write, NoMark, IsHeader, InSection, Contains,
      LastMark, NoHeadings, StampLine, Body;
    var header, body := Header(section), Body(content);
    var tail := Tail(t, header);
    WriteIsStampedRewrite(t, section, content, date);
    var front := WriteSplits(t, section, content, date);
    PartsClose(front, content, tail, header);
    EndsWithHeader(front, content, tail, header);
    var init := BodyOfLastHeader(front, header, body);
    RewriteSetsBodies(t, header, content, false);
    NoHeaderNoChange(tail, header, content, false);
    assert Bodies(front + body + tail, header) == init + [body] + [];
    InitHolds(init, body, content);
    NoMarkMeans(tail);
    NoMarkMeans(content);
    var m := LastMark(content);
    CutBody(front, content, tail, header, init, m, date);
    var p := body[..m + 1] + [StampLine(content[m], date), ""];
    assert Bodies(Write(t, section, content, date), header) == init + [p];
    HoldsBodies(init, p, content);
    CutContent(content, m, StampLine(content[m], date));
  }

  lemma CutBody(front: Text, content: Text, tail: Text, header: string, init: seq<Text>, m: nat, date: string)
    requires Parts(front, content, tail, header) && LastMark(tail) < 0 && LastMark(content) == m < |content|
    requires forall q: Text, z: Text | NoHeadings(q) && Closing(z) ::
      Bodies(front + q + z, header) == init + [q] + Bodies(z, header)
    ensures m + 1 < |Body(content)| && Body(content)[m + 1] == content[m]
    ensures Bodies(Written(front, content, tail, date), header)
         == init + [Body(content)[..m + 1] + [StampLine(content[m], date), ""]]
  {
    hide Bodies, Closing, NoHeadings, Parts, LastMark, StampLine;
    var body := Body(content);
    var p := body[..m + 1] + [StampLine(content[m], date), ""];
    assert body[m + 1] == content[m];
    ContentIsPlain(front, content, tail, header);
    CutInBodyIsPlain(content, tail, date);
    NoBodies(header);
    assert front + p == front + p + [];
    assert Bodies(front + p + [], header) == init + [p] + Bodies([], header);
    assert init + [p] + [] == init + [p];
  }

  // ----- a stamp before the section

  lemma {:induction false} StripRightKeeps(w: string, z: string)
    requires w != [] && !IsSpace(w[|w| - 1])
    ensures w <= StripRight(w + z)
    decreases |z|
  {
    hide IsSpace;
    var s := w + z;
    if z == [] {
      assert s == w;
    } else if IsSpace(z[|z| - 1]) {
      assert s[..|s| - 1] == w + z[..|z| - 1];
      StripRightKeeps(w, z[..|z| - 1]);
    }
  }

  /** A header line with a mark is a header with a mark. */
  lemma MarkedHeaderLine(x: string, header: string)
    requires IsHeader(x, header) && Contains(x, MARK)
    ensures Contains(header, MARK)
  {
    hide IsHeading, Strip;
    var k := MarkedAt(x);
    var u, z := x[..k], x[k..];
    assert x == u + z && z == MARK + z[|MARK|..];
    MarkedHeading(u, z);
    StripRightKeeps(MARK, z[|MARK|..]);
    MarkInside(StripLeft(u), StripRight(z));
    assert Strip(x) == header by { IsHeaderStrips(x, header); }
  }

  lemma IsHeaderStrips(x: string, header: string)
    requires IsHeader(x, header)
    ensures Strip(x) == header
  {
  }

  lemma MarkedAt(x: string) returns (k: nat)
    requires Contains(x, MARK)
    ensures k < |x| && MARK <= x[k..]
  {
    MarkIsThere(x, MARK, |x|);
    k := LastAt(x, MARK);
  }

  lemma MarkInside(a: string, z: string)
    requires MARK <= z
    ensures Contains(a + z, MARK)
  {
    assert (a + z)[|a|..] == z;
    LastAtFromFinds(a + z, MARK, |a + z|, |a|);
  }

  lemma {:induction false} CountConcat(a: Text, z: Text, header: string)
    ensures |Bodies(a + z, header)| == |Bodies(a, header)| + |Bodies(z, header)|
    decreases |a|
  {
    hide IsHeader, UntilHeading;
    if a == [] {
      assert a + z == z;
    } else {
      CountConcat(a[1..], z, header);
      assert a == [a[0]] + a[1..] && a + z == [a[0]] + (a[1..] + z);
      BodiesCons(a[0], a[1..], header);
      BodiesCons(a[0], a[1..] + z, header);
    }
  }

  lemma StampedLinesHaveNoBodies(line: string, date: string, header: string)
    requires !Contains(header, MARK)
    ensures Bodies([StampLine(line, date), ""], header) == []
  {
    hide IsHeader, Contains, Footer, Unmarked, UntilHeading;
    if IsHeader(StampLine(line, date), header) { StampedHeaderHasMark(Unmarked(line), date, header); }
    EmptyIsNoHeader(header);
    BodiesCons(StampLine(line, date), [""], header);
    BodiesCons("", [], header);
    assert [StampLine(line, date)] + [""] == [StampLine(line, date), ""] && [""] + [] == [""];
  }

  /** A cut before the last header line takes at least that one away. */
  lemma CutTakesBodies(r: Text, j: nat, i: nat, header: string, date: string)
    requires j < i < |r| && IsHeader(r[i], header) && !Contains(header, MARK)
    ensures |Bodies(CutText(r, j, date), header)| < |Bodies(r, header)|
  {
    hide IsHeader, Bodies, Contains, StampLine;
    var a, z := r[..j], r[j..];
    assert r == a + z && z[i - j] == r[i];
    CountConcat(a, z, header);
    HeaderHasBody(z, header);
    CountConcat(a, [StampLine(r[j], date), ""], header);
    StampedLinesHaveNoBodies(r[j], date, header);
  }

  lemma SectionCut(t: Text, section: string, content: Text, date: string)
    requires HasHeader(t, Header(section)) && NoHeadings(content) && !Contains(Header(section), MARK)
    requires !StampNotBefore(t, Header(section), content)
    ensures t != [] && |Bodies(Write(t, section, content, date), Header(section))| < |Bodies(t, Header(section))|
  {
    hide Bodies, HasHeader, Tail, Rewrite, Outside, Write, NoMark, IsHeader, InSection, Contains, LastMark, NoHeadings,
      StampLine, Body, StampNotBefore;
    var header := Header(section);
    var r, tail := Rewrite(t, header, content, false), Tail(t, header);
    WriteIsStampedRewrite(t, section, content, date);
    CutBefore(t, header, content);
    CutWrites(t, section, content, date);
    RewriteSetsBodies(t, header, content, false);
    var front := Split(t, header, content, false);
    var x := front[|front| - 1];
    NotBehind(t, header, content);
    LastMarkAt(front, content, tail);
    assert r[|front| - 1] == x;
    if LastMark(r) == |front| - 1 { MarkedHeaderLine(x, header); }
    NoMarkMeans(front);
    CutTakesBodies(r, LastMark(r), |front| - 1, header, date);
  }

  lemma NotBehind(t: Text, header: string, content: Text)
    requires HasHeader(t, header) && !StampNotBefore(t, header, content)
    ensures NoMark(Tail(t, header)) && NoMark(content) && !NoMark(Outside(t, header, false))
  {
  }

  /** After a write each body of the section begins with the content, and none is missing, exactly when
      `ContentSurvives` holds of the text before: otherwise the content is cut at the stamp in it, or the
      section is cut off with what follows the stamp before it. */
  lemma SectionHoldsContentExactly(t: Text, section: string, content: Text, date: string)
    requires HasHeader(t, Header(section)) && NoHeadings(content) && !Contains(Header(section), MARK)
    ensures t != []
    ensures HoldsAfter(t, section, content, date) <==> ContentSurvives(t, Header(section), content, date)
  {
    hide Bodies, HasHeader, Tail, Outside, Write, NoMark, Contains, LastMark, NoHeadings, EndsInStamp;
    var header := Header(section);
    WriteIsStampedRewrite(t, section, content, date);
    if !NoMark(Tail(t, header)) {
      SectionHoldsContent(t, section, content, date);
    } else if !NoMark(content) {
      ContentCut(t, section, content, date);
    } else if NoMark(Outside(t, header, false)) {
      SectionHoldsContent(t, section, content, date);
    } else {
      SectionCut(t, section, content, date);
    }
  }
}
