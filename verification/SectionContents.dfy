/** What a section of the memory file holds after it has been written. */
module SectionContents {
  import opened MarkdownMemory
  import opened MarkdownSections

  // ----- what the section holds afterwards

  lemma {:induction false} UntilHeadingOf(p: Text, z: Text)
    requires NoHeadings(p) && Closing(z)
    ensures UntilHeading(p + z) == p
    decreases |p|
  {
    hide IsHeading;
    if p == [] {
      assert p + z == z;
    } else {
      assert (p + z)[1..] == p[1..] + z;
      UntilHeadingOf(p[1..], z);
    }
  }

  lemma {:induction false} UntilHeadingConcat(a: Text, z: Text)
    requires Closing(z)
    ensures UntilHeading(a + z) == UntilHeading(a)
    decreases |a|
  {
    hide IsHeading;
    if a == [] {
      assert a + z == z;
    } else {
      assert (a + z)[1..] == a[1..] + z;
      UntilHeadingConcat(a[1..], z);
    }
  }

  lemma BodiesCons(x: string, t: Text, header: string)
    ensures Bodies([x] + t, header) == (if IsHeader(x, header) then [UntilHeading(t)] else []) + Bodies(t, header)
  {
    hide IsHeader;
    assert ([x] + t)[1..] == t;
  }

  lemma {:induction false} BodiesConcat(a: Text, z: Text, header: string)
    requires Closing(z)
    ensures Bodies(a + z, header) == Bodies(a, header) + Bodies(z, header)
    decreases |a|
  {
    hide IsHeader, UntilHeading, Closing;
    if a == [] {
      assert a + z == z;
    } else {
      BodiesConcat(a[1..], z, header);
      UntilHeadingConcat(a[1..], z);
      assert a == [a[0]] + a[1..] && a + z == [a[0]] + (a[1..] + z);
      BodiesCons(a[0], a[1..], header);
      BodiesCons(a[0], a[1..] + z, header);
    }
  }

  lemma {:induction false} PlainHasNoBodies(p: Text, z: Text, header: string)
    requires NoHeadings(p)
    ensures Bodies(p + z, header) == Bodies(z, header)
    decreases |p|
  {
    hide Strip, UntilHeading;
    if p == [] {
      assert p + z == z;
    } else {
      assert p + z == [p[0]] + (p[1..] + z);
      BodiesCons(p[0], p[1..] + z, header);
      PlainHasNoBodies(p[1..], z, header);
    }
  }

  lemma {:induction false} HeaderHasBody(t: Text, header: string)
    ensures HasHeader(t, header) <==> Bodies(t, header) != []
    decreases |t|
  {
    hide IsHeader, UntilHeading;
    if t != [] {
      HeaderInTail(t, header);
      HeaderHasBody(t[1..], header);
    }
  }

  lemma {:induction false} RewriteCloses(t: Text, header: string, content: Text)
    ensures Closing(Rewrite(t, header, content, true))
    decreases |t|
  {
    hide IsHeading, Strip, Body;
    if t != [] && !IsHeading(t[0]) { RewriteCloses(t[1..], header, content); }
  }

  /** Every body of the section is the new one. */
  ghost predicate AllHold(bodies: seq<Text>, content: Text) {
    forall i | 0 <= i < |bodies| :: bodies[i] == [""] + content + [""]
  }

  lemma BodyText(content: Text)
    ensures Body(content) == [""] + content + [""]
  {
  }

  lemma BodiesUnderHeader(x: string, content: Text, rest: Text, header: string)
    requires IsHeader(x, header) && NoHeadings(content) && Closing(rest)
    ensures Bodies([x] + (Body(content) + rest), header) == [Body(content)] + Bodies(rest, header)
  {
    hide Strip, IsHeading, Body, UntilHeading, Bodies;
    BodyIsPlain(content);
    BodiesCons(x, Body(content) + rest, header);
    UntilHeadingOf(Body(content), rest);
    PlainHasNoBodies(Body(content), rest, header);
  }

  /** After the line loop each header line of the section is followed by exactly the new body. */
  lemma {:induction false} RewriteSetsBodies(t: Text, header: string, content: Text, inSection: bool)
    requires NoHeadings(content)
    ensures
      var b := Bodies(Rewrite(t, header, content, inSection), header);
      |b| == |Bodies(t, header)| && AllHold(b, content)
    decreases |t|
  {
    hide Strip, IsHeading, Body, UntilHeading, Rewrite, Bodies, NoHeadings;
    BodyText(content);
    if t == [] {
      NothingToRewrite(header, content, inSection);
      NoBodies(header);
    } else {
      var x, now := t[0], if IsHeading(t[0]) then Strip(t[0]) == header else inSection;
      var rest := Rewrite(t[1..], header, content, now);
      RewriteSetsBodies(t[1..], header, content, now);
      assert t == [x] + t[1..];
      BodiesCons(x, t[1..], header);
      Unfolded(x, t[1..], header, content, inSection);
      if IsHeader(x, header) {
        assert [x] + Body(content) + rest == [x] + (Body(content) + rest);
        RewriteCloses(t[1..], header, content);
        BodiesUnderHeader(x, content, rest, header);
      } else if IsHeading(x) || !inSection {
        assert [x] + [] + rest == [x] + rest;
        BodiesCons(x, rest, header);
      } else {
        assert [] + [] + rest == rest;
      }
    }
  }

  lemma {:induction false} UntilHeadingRewrite(t: Text, header: string, content: Text)
    ensures UntilHeading(Rewrite(t, header, content, false)) == UntilHeading(t)
    decreases |t|
  {
    hide Strip, IsHeading, Body;
    if t != [] && !IsHeading(t[0]) {
      UntilHeadingRewrite(t[1..], header, content);
      assert ([t[0]] + Rewrite(t[1..], header, content, false))[1..] == Rewrite(t[1..], header, content, false);
    }
  }

  /** The line loop leaves the bodies of every other section alone. */
  lemma {:induction false} RewriteKeepsBodies(t: Text, header: string, content: Text, inSection: bool, other: string)
    requires NoHeadings(content) && other != header
    ensures Bodies(Rewrite(t, header, content, inSection), other) == Bodies(t, other)
    decreases |t|
  {
    hide Strip, IsHeading, Body, UntilHeading, Rewrite, Bodies, NoHeadings;
    if t == [] {
      NothingToRewrite(header, content, inSection);
    } else {
      var x, now := t[0], if IsHeading(t[0]) then Strip(t[0]) == header else inSection;
      var rest := Rewrite(t[1..], header, content, now);
      RewriteKeepsBodies(t[1..], header, content, now, other);
      assert t == [x] + t[1..];
      BodiesCons(x, t[1..], other);
      Unfolded(x, t[1..], header, content, inSection);
      if IsHeader(x, header) {
        BodyIsPlain(content);
        assert [x] + Body(content) + rest == [x] + (Body(content) + rest);
        BodiesCons(x, Body(content) + rest, other);
        PlainHasNoBodies(Body(content), rest, other);
      } else if IsHeading(x) || !inSection {
        assert [x] + [] + rest == [x] + rest;
        BodiesCons(x, rest, other);
        if IsHeading(x) { UntilHeadingRewrite(t[1..], header, content); }
      } else {
        assert [] + [] + rest == rest;
      }
    }
  }

  // ----- a stamped line

  lemma {:induction false} StripLeftConcat(u: string, z: string)
    requires z != [] && !IsSpace(z[0])
    ensures StripLeft(u + z) == StripLeft(u) + z
    decreases |u|
  {
    hide IsSpace;
    if u == [] {
      assert u + z == z;
    } else {
      assert (u + z)[1..] == u[1..] + z;
      if IsSpace(u[0]) { StripLeftConcat(u[1..], z); }
    }
  }

  lemma {:induction false} StripRightConcat(w: string, z: string)
    requires z != [] && !IsSpace(z[0])
    ensures StripRight(w + z) == w + StripRight(z) && StripRight(z) != [] && StripRight(z)[0] == z[0]
    decreases |z|
  {
    hide IsSpace;
    StripRightKeepsFirst(z);
    if IsSpace(z[|z| - 1]) {
      assert (w + z)[..|w + z| - 1] == w + z[..|z| - 1];
      StripRightConcat(w, z[..|z| - 1]);
    }
  }

  /** Whether a line with a mark is a heading depends on what precedes the mark. */
  lemma MarkedHeading(u: string, z: string)
    requires z != [] && z[0] == '*'
    ensures Strip(u + z) == StripLeft(u) + StripRight(z)
    ensures IsHeading(u + z) <==> "## " <= StripLeft(u)
  {
    StripLeftConcat(u, z);
    StripRightConcat(StripLeft(u), z);
    HeadingBeforeMark(StripLeft(u), StripRight(z));
  }

  lemma HeadingBeforeMark(w: string, z: string)
    requires z != [] && z[0] == '*'
    ensures "## " <= w + z <==> "## " <= w
  {
    if |w| < 3 {
      assert (w + z)[|w|] == '*';
    }
  }

  lemma HeadingStripsLeft(line: string)
    requires IsHeading(line)
    ensures "## " <= StripLeft(line)
  {
    StripRightIsPrefix(StripLeft(line));
  }

  /** Stamping a heading leaves a heading. */
  lemma StampedHeading(line: string, date: string)
    requires IsHeading(line)
    ensures IsHeading(Unmarked(line) + Footer(date))
  {
    var u := Unmarked(line);
    if Contains(line, MARK) {
      var k := LastAt(line, MARK);
      MarkIsThere(line, MARK, |line|);
      assert line == u + line[k..];
      MarkedHeading(u, line[k..]);
    } else {
      HeadingStripsLeft(line);
    }
    MarkedHeading(u, Footer(date));
  }

  lemma {:induction false} MarkIsThere(s: string, sub: string, i: int)
    requires i <= |s|
    ensures LastAtFrom(s, sub, i) >= 0 ==> sub <= s[LastAtFrom(s, sub, i)..]
    decreases i + 1
  {
    if i >= 0 && !(sub <= s[i..]) { MarkIsThere(s, sub, i - 1); }
  }

  lemma StampIsPlain(date: string)
    ensures !IsHeading(Footer(date))
  {
    assert "" + Footer(date) == Footer(date);
    MarkedHeading("", Footer(date));
  }

  /** A stamped line is a header of the section only if the section's name holds a stamp. */
  lemma StampedHeaderHasMark(u: string, date: string, header: string)
    requires IsHeader(u + Footer(date), header)
    ensures Contains(header, MARK)
  {
    MarkedHeading(u, Footer(date));
    FooterStripsRight(date);
    StampedLineHasMark(StripLeft(u), date);
  }

  lemma FooterStripsRight(date: string)
    ensures StripRight(Footer(date)) == Footer(date)
  {
    assert Footer(date)[|Footer(date)| - 1] == '*';
  }

  // ----- the written text in full

  /** The last mark of the text after the line loop does not stand before the section. */
  ghost predicate StampNotBefore(t: Text, header: string, content: Text)
    requires HasHeader(t, header)
  {
    !NoMark(Tail(t, header)) || !NoMark(content) || NoMark(Outside(t, header, false))
  }

  /** Where the cut falls behind the last header line: `Some` position of the tail, or of the body. */
  datatype Cut = InTail(m: nat) | InBody(b: nat)

  function CutOf(content: Text, tail: Text): (c: Cut)
    ensures match c case InTail(m) => m < |tail| case InBody(b) => b < |Body(content)|
  {
    if LastMark(tail) >= 0 then InTail(LastMark(tail))
    else if LastMark(content) >= 0 then InBody(LastMark(content) + 1)
    else if tail == [] then InBody(|content| + 1)
    else InTail(|tail| - 1)
  }

  function StampLine(line: string, date: string): string {
    Unmarked(line) + Footer(date)
  }

  function StampedTail(tail: Text, m: nat, date: string): Text
    requires m < |tail|
  {
    tail[..m] + [StampLine(tail[m], date), ""]
  }

  /** The text that is written: the front, the new body, and the tail, cut and stamped. */
  function Written(front: Text, content: Text, tail: Text, date: string): Text {
    match CutOf(content, tail)
    case InTail(m) => front + Body(content) + StampedTail(tail, m, date)
    case InBody(b) => front + (Body(content)[..b] + [StampLine(Body(content)[b], date), ""])
  }

  lemma BodyLastMark(content: Text)
    ensures LastMark(Body(content)) == if LastMark(content) >= 0 then LastMark(content) + 1 else -1
  {
    hide Contains, LastMark;
    var body := Body(content);
    NoMarkMeans(content);
    BodyMarks(content);
    NoMarkMeans(body);
    EmptyLineHasNoMark();
    if LastMark(content) >= 0 {
      var m := LastMark(content);
      assert body[m + 1] == content[m];
      forall i | m + 1 < i < |body| ensures !Contains(body[i], MARK) {
        if i <= |content| { assert body[i] == content[i - 1]; }
      }
      LastMarkIs(body, m + 1);
    }
  }

  lemma StampWrites(front: Text, content: Text, tail: Text, date: string)
    requires !NoMark(tail) || !NoMark(content) || NoMark(front)
    ensures Stamp(front + Body(content) + tail, date) == Written(front, content, tail, date)
  {
    hide Contains, LastMark, Stamp, Footer, Unmarked, NoMark;
    var body := Body(content);
    var r := front + body + tail;
    LastMarkAt(front, content, tail);
    BodyLastMark(content);
    NoMarkMeans(tail);
    NoMarkMeans(content);
    NoMarkMeans(front);
    StampCuts(r, date);
    match CutOf(content, tail) {
      case InTail(m) =>
        assert StampAt(r) == |front| + |body| + m && r[|front| + |body| + m] == tail[m];
        assert r[..|front| + |body| + m] == front + body + tail[..m];
      case InBody(b) =>
        assert StampAt(r) == |front| + b && r[|front| + b] == body[b];
        assert r[..|front| + b] == front + body[..b];
    }
  }

  /** The parts of the text and how they are written. */
  lemma WriteSplits(t: Text, section: string, content: Text, date: string) returns (front: Text)
    requires HasHeader(t, Header(section)) && NoHeadings(content) && StampNotBefore(t, Header(section), content)
    ensures
      var header := Header(section);
      var tail := Tail(t, header);
      && Parts(front, content, tail, header)
      && Rewrite(t, header, content, false) == front + Body(content) + tail
      && (!NoMark(tail) || !NoMark(content) || NoMark(front))
      && (forall d :: Write(t, section, content, d) == Written(front, content, tail, d))
  {
    hide Rewrite, Outside, Stamp, Tail, HasHeader, IsHeader, Body, InSection, NoMark, LastMark, NoHeadings,
      Edit, Written,
      Write, Closing;
    var header := Header(section);
    front := Split(t, header, content, false);
    TailCloses(t, header);
    MarksOf(Outside(front, header, false), Tail(t, header));
    WriteIsStampedRewrite(t, section, content, date);
    forall d ensures Write(t, section, content, d) == Written(front, content, Tail(t, header), d) {
      WriteIsStampedRewrite(t, section, content, d);
      StampWrites(front, content, Tail(t, header), d);
    }
  }

  /** A stamped line of a body is no heading. */
  lemma StampedBodyIsPlain(content: Text, b: nat, date: string)
    requires NoHeadings(content) && b < |Body(content)|
    requires Contains(Body(content)[b], MARK) || Body(content)[b] == ""
    ensures NoHeadings(Body(content)[..b] + [StampLine(Body(content)[b], date), ""])
  {
    hide IsHeading, Contains, Body;
    var line := Body(content)[b];
    BodyIsPlain(content);
    EmptyLineIsPlain();
    if Contains(line, MARK) { StampedPlain(line, date); } else {
      EmptyLineHasNoMark();
      StampIsPlain(date);
      assert "" + Footer(date) == Footer(date);
    }
  }

  lemma StampedPlain(line: string, date: string)
    requires !IsHeading(line) && Contains(line, MARK)
    ensures !IsHeading(Unmarked(line) + Footer(date))
  {
    var k := LastAt(line, MARK);
    MarkIsThere(line, MARK, |line|);
    assert line == line[..k] + line[k..];
    MarkedHeading(line[..k], line[k..]);
    MarkedHeading(line[..k], Footer(date));
  }

  lemma CutInBodyIsPlain(content: Text, tail: Text, date: string)
    requires NoHeadings(content) && CutOf(content, tail).InBody?
    ensures
      var b := CutOf(content, tail).b;
      NoHeadings(Body(content)[..b] + [StampLine(Body(content)[b], date), ""])
  {
    hide IsHeading, Contains, LastMark;
    NoMarkMeans(content);
    var b := CutOf(content, tail).b;
    if LastMark(content) >= 0 { assert Body(content)[b] == content[b - 1]; }
    StampedBodyIsPlain(content, b, date);
  }

  /** The tail, cut and stamped, still begins with a heading. */
  lemma StampedTailCloses(tail: Text, m: nat, date: string)
    requires Closing(tail) && m < |tail|
    ensures Closing(StampedTail(tail, m, date))
  {
    hide IsHeading;
    if m == 0 { StampedHeading(tail[0], date); }
  }

  // ----- the positive half

  lemma BodyOfLastHeader(front: Text, header: string, p: Text) returns (init: seq<Text>)
    requires front != [] && IsHeader(front[|front| - 1], header)
    ensures forall q: Text, z: Text | NoHeadings(q) && Closing(z) ::
      Bodies(front + q + z, header) == init + [q] + Bodies(z, header)
  {
    hide Closing, IsHeader, NoHeadings, Bodies, UntilHeading;
    var f0, x := front[..|front| - 1], front[|front| - 1];
    init := Bodies(f0, header);
    forall q: Text, z: Text | NoHeadings(q) && Closing(z)
      ensures Bodies(front + q + z, header) == init + [q] + Bodies(z, header)
    {
      assert front + q + z == f0 + ([x] + (q + z));
      HeaderCloses(x, q + z, header);
      BodiesConcat(f0, [x] + (q + z), header);
      BodiesCons(x, q + z, header);
      UntilHeadingOf(q, z);
      PlainHasNoBodies(q, z, header);
      assert init + ([q] + Bodies(z, header)) == init + [q] + Bodies(z, header);
    }
  }

  lemma HeaderCloses(x: string, t: Text, header: string)
    requires IsHeader(x, header)
    ensures Closing([x] + t)
  {
  }

  lemma NoBodies(header: string)
    ensures Bodies([], header) == [] && Closing([])
  {
  }

  /** After a write whose stamp does not fall before or into the section, each of its bodies begins with
      an empty line and the content, and is nothing but that where the section is not last. */
  lemma SectionHoldsContent(t: Text, section: string, content: Text, date: string)
    requires HasHeader(t, Header(section)) && NoHeadings(content)
    requires !NoMark(Tail(t, Header(section))) || (NoMark(content) && NoMark(Outside(t, Header(section), false)))
    ensures
      var header := Header(section);
      var b, n := Bodies(Write(t, section, content, date), header), |Bodies(t, header)|;
      && 0 < n <= |b|
      && (forall i | 0 <= i < n :: [""] + content <= b[i])
      && (Tail(t, header) != [] ==> AllHold(b[..n], content))
  {
    hide Bodies, HasHeader, Tail, Closing, Written, Rewrite, Outside, Write, NoMark, IsHeader, InSection,
      Contains, LastMark,
      NoHeadings, StampLine;
    var header, body := Header(section), Body(content);
    var tail := Tail(t, header);
    var front := WriteSplits(t, section, content, date);
    PartsClose(front, content, tail, header);
    EndsWithHeader(front, content, tail, header);
    var init := BodyOfLastHeader(front, header, body);
    RewriteSetsBodies(t, header, content, false);
    NoHeaderNoChange(tail, header, content, false);
    assert Bodies(front + body + tail, header) == init + [body] + [];
    assert |init| + 1 == |Bodies(t, header)|;
    InitHolds(init, body, content);
    NoMarkMeans(tail);
    NoMarkMeans(content);
    WrittenBodies(front, content, tail, header, init, date);
  }

  lemma EndsWithHeader(front: Text, content: Text, tail: Text, header: string)
    requires Parts(front, content, tail, header)
    ensures front != [] && IsHeader(front[|front| - 1], header)
  {
  }

  lemma InitHolds(init: seq<Text>, body: Text, content: Text)
    requires AllHold(init + [body] + [], content)
    ensures AllHold(init, content)
  {
    hide Body;
    var all := init + [body] + [];
    assert forall i | 0 <= i < |init| :: all[i] == init[i];
  }

  lemma WrittenBodies(front: Text, content: Text, tail: Text, header: string, init: seq<Text>, date: string)
    requires Parts(front, content, tail, header) && AllHold(init, content)
    requires LastMark(tail) >= 0 || LastMark(content) == -1
    requires forall q: Text, z: Text | NoHeadings(q) && Closing(z) ::
      Bodies(front + q + z, header) == init + [q] + Bodies(z, header)
    ensures
      var b := Bodies(Written(front, content, tail, date), header);
      && |init| < |b|
      && (forall i | 0 <= i <= |init| :: [""] + content <= b[i])
      && (tail != [] ==> AllHold(b[..|init| + 1], content))
  {
    hide Bodies, Closing, NoHeadings, Parts, LastMark, StampLine;
    var body, w := Body(content), Written(front, content, tail, date);
    PartsClose(front, content, tail, header);
    match CutOf(content, tail) {
      case InTail(m) =>
        var z := StampedTail(tail, m, date);
        StampedTailCloses(tail, m, date);
        assert Bodies(w, header) == init + [body] + Bodies(z, header);
      case InBody(b) =>
        var p := body[..b] + [StampLine(body[b], date), ""];
        ContentIsPlain(front, content, tail, header);
        CutInBodyIsPlain(content, tail, date);
        NoBodies(header);
        assert front + p == front + p + [];
        assert Bodies(w, header) == init + [p] + Bodies([], header);
        assert body[..|content| + 1] == [""] + content;
    }
  }

  lemma ContentIsPlain(front: Text, content: Text, tail: Text, header: string)
    requires Parts(front, content, tail, header)
    ensures NoHeadings(content)
  {
  }

  // ----- mentioning

  lemma MentionsConcat(a: Text, b: Text, sub: string)
    ensures Mentions(a + b, sub) <==> Mentions(a, sub) || Mentions(b, sub)
  {
    hide Contains;
    var c := a + b;
    assert forall i | 0 <= i < |a| :: c[i] == a[i];
    assert forall i | 0 <= i < |b| :: c[|a| + i] == b[i];
    assert forall i | |a| <= i < |c| :: c[i] == b[i - |a|];
  }

  lemma FirstIsThere(s: string, sub: string)
    requires sub != [] && Contains(s, sub)
    ensures sub[0] in s
  {
    MarkIsThere(s, sub, |s|);
    var k := LastAt(s, sub);
    assert s[k..][0] == s[k];
  }

  lemma HashIsNotIn(s: string, sub: string)
    requires sub != [] && sub[0] == '#' && '#' !in s
    ensures !Contains(s, sub)
  {
    hide Contains;
    if Contains(s, sub) { FirstIsThere(s, sub); }
  }
}
