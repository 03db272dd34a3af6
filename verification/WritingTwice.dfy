/** Writing a section of the memory file twice: exactly when the second write gives what writing once at
the later time would have given. */
module WritingTwice {
  import opened MarkdownMemory
  import opened MarkdownSections
  import opened SectionContents

  /** The mark of a stamp is the line's last. */
  lemma StampUnmarked(u: string, date: string)
    requires '*' !in date
    ensures Unmarked(u + Footer(date)) == u
  {
    var line := u + Footer(date);
    assert line[|u|..] == Footer(date) && MARK <= Footer(date);
    forall j | |u| < j <= |line| ensures !(MARK <= line[j..]) {
      LaterIsNoMark(u, date, j);
    }
    LastAtFromIs(line, MARK, |line|, |u|);
  }

  lemma LaterIsNoMark(u: string, date: string, j: nat)
    requires '*' !in date && |u| < j <= |u + Footer(date)|
    ensures !(MARK <= (u + Footer(date))[j..])
  {
    var f, k := Footer(date), j - |u|;
    assert (u + f)[j..] == f[k..];
    if |MARK| + 1 <= k < |f| - 1 { assert f[k] == date[k - |MARK| - 1]; }
    assert k < |f| - 1 ==> f[k] != '*';
  }

  lemma RewriteFront(t: Text, front: Text, content: Text, tail: Text, header: string)
    requires Parts(front, content, tail, header) && Rewrite(t, header, content, false) == front + Body(content) + tail
    ensures Rewrite(front, header, content, false) == front + Body(content)
  {
    hide Rewrite, Parts, Body, InSection, NoHeadings, Closing, HasHeader;
    ContentIsPlain(front, content, tail, header);
    RewriteKeepsOthers(t, header, content, false);
    FixpointFront(front, content, tail, header);
  }

  lemma FixpointFront(front: Text, content: Text, tail: Text, header: string)
    requires Parts(front, content, tail, header)
    requires Rewrite(front + Body(content) + tail, header, content, false) == front + Body(content) + tail
    ensures Rewrite(front, header, content, false) == front + Body(content)
  {
    hide Rewrite, Parts, Body, InSection, NoHeadings, Closing, HasHeader;
    var body := Body(content);
    PartsClose(front, content, tail, header);
    assert front + (body + tail) == front + body + tail;
    RewriteConcat(front, body + tail, header, content, false);
    OpenSectionDrops(body, tail, header, content);
    NoHeaderNoChange(tail, header, content, true);
    CancelEnd(Rewrite(front, header, content, false), front + body, tail);
  }

  lemma CancelEnd(a: Text, b: Text, z: Text)
    requires a + z == b + z
    ensures a == b
  {
    assert |a| == |b|;
    assert (a + z)[..|a|] == a && (b + z)[..|b|] == b;
  }

  lemma HasHeaderIn(front: Text, rest: Text, header: string)
    requires front != [] && IsHeader(front[|front| - 1], header)
    ensures HasHeader(front + rest, header)
  {
    assert (front + rest)[|front| - 1] == front[|front| - 1];
  }

  /** Unless the last mark stands before the section, writing it again gives what writing it once at the
      later time would have given. */
  lemma TwiceIsOnceUnlessCutBefore(t: Text, section: string, content: Text, date: string, date': string)
    requires HasHeader(t, Header(section)) && NoHeadings(content) && StampNotBefore(t, Header(section), content)
    requires '*' !in date && !Contains(Header(section), MARK)
    ensures Write(Write(t, section, content, date), section, content, date') == Write(t, section, content, date')
  {
    hide *;
    var header := Header(section);
    var tail := Tail(t, header);
    WriteIsStampedRewrite(t, section, content, date);
    var front := WriteSplits(t, section, content, date);
    RewriteFront(t, front, content, tail, header);
    RewriteAgain(front, content, tail, header, date, date');
    WrittenHasHeader(front, content, tail, header, date);
    WriteIsStampedRewrite(Write(t, section, content, date), section, content, date');
  }

  lemma WrittenHasHeader(front: Text, content: Text, tail: Text, header: string, date: string)
    requires Parts(front, content, tail, header)
    ensures HasHeader(Written(front, content, tail, date), header)
  {
    hide Body, StampLine, HasHeader, IsHeader;
    EndsWithHeader(front, content, tail, header);
    match CutOf(content, tail) {
      case InTail(m) =>
        var z := StampedTail(tail, m, date);
        HasHeaderIn(front, Body(content) + z, header);
        assert front + (Body(content) + z) == front + Body(content) + z;
      case InBody(b) => HasHeaderIn(front, Body(content)[..b] + [StampLine(Body(content)[b], date), ""], header);
    }
  }

  /** The stamped tail holds no header of the section, so the line loop leaves it alone. */
  lemma RewriteStampedTail(front: Text, content: Text, tail: Text, header: string, m: nat, date: string)
    requires Parts(front, content, tail, header) && !Contains(header, MARK) && m < |tail|
    requires Rewrite(front, header, content, false) == front + Body(content)
    ensures
      var z := StampedTail(tail, m, date);
      Rewrite(front + Body(content) + z, header, content, false) == front + Body(content) + z
  {
    hide Rewrite, Parts, Body, InSection, NoHeadings, Closing, HasHeader, Contains, Footer, StampedTail, FromHeading;
    var z := StampedTail(tail, m, date);
    PartsClose(front, content, tail, header);
    StampedTailCloses(tail, m, date);
    StampedTailHasNoHeader(tail, header, m, date);
    RewriteFrontBody(front, content, z, header);
    NoHeaderNoChange(z, header, content, true);
    ClosingIsFromHeading(z);
  }

  lemma RewriteFrontBody(front: Text, content: Text, z: Text, header: string)
    requires InSection(front, header, false) && NoHeadings(Body(content))
    requires Rewrite(front, header, content, false) == front + Body(content)
    ensures Rewrite(front + Body(content) + z, header, content, false)
         == front + Body(content) + Rewrite(z, header, content, true)
  {
    hide Rewrite, Body, InSection, NoHeadings;
    var body := Body(content);
    RewriteConcat(front, body + z, header, content, false);
    OpenSectionDrops(body, z, header, content);
    assert front + (body + z) == front + body + z;
  }

  lemma ClosingIsFromHeading(z: Text)
    requires Closing(z)
    ensures FromHeading(z) == z
  {
  }

  lemma StampedTailHasNoHeader(tail: Text, header: string, m: nat, date: string)
    requires !HasHeader(tail, header) && !Contains(header, MARK) && m < |tail|
    ensures !HasHeader(StampedTail(tail, m, date), header)
  {
    hide IsHeader, Contains, Footer, Unmarked;
    var z := StampedTail(tail, m, date);
    forall i | 0 <= i < |z| ensures !IsHeader(z[i], header) {
      if i < m {
        assert z[i] == tail[i];
      } else if i == m {
        if IsHeader(z[m], header) { StampedHeaderHasMark(Unmarked(tail[m]), date, header); }
      } else {
        EmptyIsNoHeader(header);
      }
    }
  }

  lemma EmptyIsNoHeader(header: string)
    ensures !IsHeader("", header)
  {
  }

  lemma CutAgain(content: Text, tail: Text, m: nat, date: string)
    requires m < |tail|
    ensures LastMark(StampedTail(tail, m, date)) == m && !NoMark(StampedTail(tail, m, date))
    ensures CutOf(content, StampedTail(tail, m, date)) == InTail(m)
  {
    hide Contains, Footer, Unmarked, LastMark;
    var z := StampedTail(tail, m, date);
    assert z[m] == StampLine(tail[m], date);
    StampedLineHasMark(Unmarked(tail[m]), date);
    EmptyLineHasNoMark();
    LastMarkIs(z, m);
  }

  lemma RewriteAgain(front: Text, content: Text, tail: Text, header: string, date: string, date': string)
    requires Parts(front, content, tail, header) && '*' !in date && !Contains(header, MARK)
    requires Rewrite(front, header, content, false) == front + Body(content)
    requires !NoMark(tail) || !NoMark(content) || NoMark(front)
    ensures
      var r := Rewrite(Written(front, content, tail, date), header, content, false);
      r != [] ==> Stamp(r, date') == Written(front, content, tail, date')
  {
    hide Rewrite, Parts, Body, InSection, NoHeadings, Closing, HasHeader, Stamp, Contains, NoMark, Unmarked,
      Footer, Outside;
    var body := Body(content);
    PartsClose(front, content, tail, header);
    ContentIsPlain(front, content, tail, header);
    match CutOf(content, tail) {
      case InTail(m) =>
        var z := StampedTail(tail, m, date);
        RewriteStampedTail(front, content, tail, header, m, date);
        CutAgain(content, tail, m, date);
        assert z[..m] == tail[..m] && z[m] == StampLine(tail[m], date);
        StampUnmarked(Unmarked(tail[m]), date);
        StampWrites(front, content, z, date');
      case InBody(b) =>
        var p := body[..b] + [StampLine(body[b], date), ""];
        CutInBodyIsPlain(content, tail, date);
        RewriteConcat(front, p, header, content, false);
        OpenSectionDrops(p, [], header, content);
        assert p + [] == p;
        NothingToRewrite(header, content, true);
        assert front + body + [] == front + body;
        NoMarkMeans(content);
        NoMarkMeans(tail);
        StampWrites(front, content, [], date');
    }
  }

  // ----- a cut before the section

  lemma CutBodyHasNoMark(x: string, content: Text, rest: Text, j: nat)
    requires NoMark(content) && j < |[x] + (Body(content) + rest)|
    requires Contains(([x] + (Body(content) + rest))[j], MARK)
    ensures j == 0 || j > |Body(content)|
  {
    hide Contains, Body;
    BodyHasNoMark(content);
    var r, body := [x] + (Body(content) + rest), Body(content);
    assert forall i | 1 <= i <= |body| :: r[i] == body[i - 1];
  }

  lemma RewriteUnderHeader(x: string, q: Text, header: string, content: Text, inSection: bool)
    requires IsHeading(x) && Strip(x) == header && NoHeadings(content)
    ensures
      var r := [x] + (Body(content) + q);
      && Rewrite(r, header, content, inSection) == [x] + (Body(content) + Rewrite(q, header, content, true))
      && InSection(r, header, inSection) == InSection(q, header, true)
  {
    hide Rewrite, InSection, IsHeading, Strip, Body, NoHeadings;
    BodyIsPlain(content);
    Unfolded(x, Body(content) + q, header, content, inSection);
    OpenSectionDrops(Body(content), q, header, content);
  }

  /** Up to a line with a mark the rewritten text is rewritten to itself; where the section is open
      there, that line is a heading. */
  lemma {:induction false} CutIsFixpoint(t: Text, header: string, content: Text, inSection: bool, j: nat)
    requires NoHeadings(content) && NoMark(content)
    requires j < |Rewrite(t, header, content, inSection)|
    requires Contains(Rewrite(t, header, content, inSection)[j], MARK)
    ensures
      var r := Rewrite(t, header, content, inSection);
      && Rewrite(r[..j], header, content, inSection) == r[..j]
      && (InSection(r[..j], header, inSection) ==> IsHeading(r[j]))
    decreases |t|
  {
    hide Rewrite, InSection, IsHeading, Strip, Body, NoMark, NoHeadings, Contains;
    var r := Rewrite(t, header, content, inSection);
    NothingToRewrite(header, content, inSection);
    NothingInside(header, inSection);
    var x, rest := t[0], t[1..];
    var now := if IsHeading(x) then Strip(x) == header else inSection;
    var q := Rewrite(rest, header, content, now);
    assert t == [x] + rest;
    Unfolded(x, rest, header, content, inSection);
    if IsHeading(x) && now {
      var body := Body(content);
      assert r == [x] + (body + q);
      CutBodyHasNoMark(x, content, q, j);
      if j > 0 {
        var k := j - 1 - |body|;
        assert q[k] == r[j] && r[..j] == [x] + (body + q[..k]);
        CutIsFixpoint(rest, header, content, now, k);
        RewriteUnderHeader(x, q[..k], header, content, inSection);
      } else {
        assert r[..0] == [];
      }
    } else if IsHeading(x) || !inSection {
      assert r == [x] + q;
      if j > 0 {
        assert q[j - 1] == r[j] && r[..j] == [x] + q[..j - 1];
        CutIsFixpoint(rest, header, content, now, j - 1);
        Unfolded(x, q[..j - 1], header, content, inSection);
        assert [x] + [] + q[..j - 1] == [x] + q[..j - 1];
      } else {
        assert r[..0] == [];
      }
    } else {
      assert r == q;
      CutIsFixpoint(rest, header, content, now, j);
    }
  }

  /** The cut falls before the section: what it leaves, seen from the text before. */
  lemma CutBefore(t: Text, header: string, content: Text)
    requires HasHeader(t, header) && NoHeadings(content) && !StampNotBefore(t, header, content)
    ensures
      var r, o := Rewrite(t, header, content, false), Outside(t, header, false);
      var j, k := LastMark(r), LastMark(o);
      && NoMark(content) && 0 <= j < |r| && 0 <= k < |o| && Contains(r[j], MARK)
      && Rewrite(r[..j], header, content, false) == r[..j]
      && (InSection(r[..j], header, false) ==> IsHeading(r[j]))
      && Outside(r[..j], header, false) == o[..k] && o[k] == r[j]
  {
    hide Rewrite, InSection, IsHeading, Strip, Outside, Contains, LastMark, Tail, HasHeader, NoHeadings, NoMark;
    var r, o := Rewrite(t, header, content, false), Outside(t, header, false);
    var j := LastMark(r);
    RewriteKeepsOthers(t, header, content, false);
    if NoMark(r) { OutsideNoMark(r, header, false); }
    NoMarkMeans(r);
    CutIsFixpoint(t, header, content, false, j);
    OutsideAt(r, header, j);
  }

  lemma OutsideAt(r: Text, header: string, j: nat)
    requires j < |r| && Contains(r[j], MARK) && forall i | j < i < |r| :: !Contains(r[i], MARK)
    requires InSection(r[..j], header, false) ==> IsHeading(r[j])
    ensures
      var o := Outside(r, header, false);
      var k := LastMark(o);
      0 <= k < |o| && Outside(r[..j], header, false) == o[..k] && o[k] == r[j]
  {
    hide InSection, IsHeading, Strip, Outside, Contains, LastMark;
    var a, x, rest := r[..j], r[j], r[j + 1..];
    var st := InSection(a, header, false);
    var now := if IsHeading(x) then Strip(x) == header else st;
    assert r == a + ([x] + rest);
    OutsideConcat(a, [x] + rest, header, false);
    Unfolded(x, rest, header, [], st);
    assert NoMark(rest);
    OutsideNoMark(rest, header, now);
    var o, b := Outside(a, header, false), Outside(rest, header, now);
    assert forall i | 0 <= i < |b| :: (o + ([x] + b))[|o| + 1 + i] == b[i];
    assert forall i | |o| < i < |o| + 1 + |b| :: (o + ([x] + b))[i] == b[i - |o| - 1];
    LastMarkIs(o + ([x] + b), |o|);
  }

  /** The text that a cut at line `j` leaves, stamped. */
  function CutText(r: Text, j: nat, date: string): Text
    requires j < |r|
  {
    r[..j] + [StampLine(r[j], date), ""]
  }

  lemma RewriteCutText(r: Text, j: nat, header: string, content: Text, date: string)
    requires j < |r| && !Contains(header, MARK) && Rewrite(r[..j], header, content, false) == r[..j]
    requires InSection(r[..j], header, false) ==> IsHeading(r[j])
    ensures Rewrite(CutText(r, j, date), header, content, false) == CutText(r, j, date)
  {
    hide Rewrite, InSection, IsHeading, Strip, Contains, Footer, Unmarked, Body;
    var line, st := StampLine(r[j], date), InSection(r[..j], header, false);
    RewriteConcat(r[..j], [line, ""], header, content, false);
    if IsHeader(line, header) { StampedHeaderHasMark(Unmarked(r[j]), date, header); }
    if st { StampedHeading(r[j], date); }
    EmptyLineIsPlain();
    assert [line] + [""] == [line, ""] && [""] + [] == [""];
    Unfolded(line, [""], header, content, st);
    Unfolded("", [], header, content, false);
    NothingToRewrite(header, content, false);
  }

  lemma StampCutText(r: Text, j: nat, date: string, date': string)
    requires j < |r| && '*' !in date
    ensures Stamp(CutText(r, j, date), date') == CutText(r, j, date') && !NoMark(CutText(r, j, date))
  {
    hide Contains, Footer, LastMark, Unmarked;
    var p := CutText(r, j, date);
    StampedLineHasMark(Unmarked(r[j]), date);
    EmptyLineHasNoMark();
    assert p[j] == StampLine(r[j], date);
    LastMarkIs(p, j);
    StampCuts(p, date');
    StampUnmarked(Unmarked(r[j]), date);
    assert p[..j] == r[..j];
  }

  /** After a cut before the section, writing again gives the same unless the section is taken for a new
      one and added before a footer. */
  lemma TwiceAfterCut(t: Text, section: string, content: Text, date: string, date': string)
    requires HasHeader(t, Header(section)) && NoHeadings(content) && !StampNotBefore(t, Header(section), content)
    requires '*' !in date && !Contains(Header(section), MARK)
    ensures
      var p := Write(t, section, content, date);
      Write(p, section, content, date') == Write(t, section, content, date') <==>
        Mentions(p, Header(section)) || !HasFooter(p)
  {
    hide Rewrite, InSection, IsHeading, Outside, Contains, LastMark, HasHeader, NoHeadings, NoMark, StampNotBefore,
      CutText, Stamp, Mentions, HasFooter, Edit, Write;
    var header := Header(section);
    var r := Rewrite(t, header, content, false);
    WriteIsStampedRewrite(t, section, content, date);
    var p := Write(t, section, content, date);
    CutBefore(t, header, content);
    var j := LastMark(r);
    CutWrites(t, section, content, date);
    CutWrites(t, section, content, date');
    RewriteCutText(r, j, header, content, date);
    StampCutText(r, j, date, date');
    if HasHeader(p, header) {
      WriteIsStampedRewrite(p, section, content, date');
      HeaderIsMentioned(p, header);
    } else if Mentions(p, header) {
      MentionedHeaderIsNeverWritten(p, section, content, date');
    } else {
      NewSectionDroppedExactlyWithoutFooter(p, section, content, date');
    }
  }

  lemma CutWrites(t: Text, section: string, content: Text, date: string)
    requires HasHeader(t, Header(section)) && LastMark(Rewrite(t, Header(section), content, false)) >= 0
    ensures
      var r := Rewrite(t, Header(section), content, false);
      Write(t, section, content, date) == CutText(r, LastMark(r), date)
  {
    hide Rewrite, Stamp, LastMark, HasHeader, Footer, Unmarked;
    var r := Rewrite(t, Header(section), content, false);
    WriteIsStampedRewrite(t, section, content, date);
    StampCuts(r, date);
  }

  // ----- the condition on the text before the call

  /** What stands outside the section up to its last time stamp, that stamp included. */
  function UpToStamp(t: Text, header: string): Text {
    var o := Outside(t, header, false);
    var k := LastMark(o);
    if k < 0 then o else o[..k] + [Unmarked(o[k]) + MARK]
  }

  /** The last stamp does not stand before the section, or what stands up to it either mentions the
      header or holds no footer. */
  ghost predicate SameWhenRepeated(t: Text, header: string, content: Text)
    requires HasHeader(t, header)
  {
    StampNotBefore(t, header, content) || Mentions(UpToStamp(t, header), header) || !HasFooter(UpToStamp(t, header))
  }

  lemma {:induction false} OutsideKeepsHeader(t: Text, header: string, inSection: bool)
    ensures HasHeader(Outside(t, header, inSection), header) <==> HasHeader(t, header)
    decreases |t|
  {
    hide IsHeading, Strip, IsHeader;
    if t != [] {
      var x, now := t[0], if IsHeading(t[0]) then Strip(t[0]) == header else inSection;
      OutsideKeepsHeader(t[1..], header, now);
      HeaderInTail(t, header);
      PlainIsNoHeader(x, header);
      var o := Outside(t[1..], header, now);
      assert ([x] + o)[1..] == o;
      HeaderInTail([x] + o, header);
    }
  }

  lemma PlainIsNoHeader(x: string, header: string)
    ensures !IsHeading(x) ==> !IsHeader(x, header)
  {
  }

  /** An occurrence of a header in a stamped line does not reach beyond the mark. */
  lemma StampAddsNoMention(u: string, date: string, header: string)
    requires header != [] && header[0] == '#' && '#' !in date && !Contains(header, MARK)
    ensures Contains(u + Footer(date), header) <==> Contains(u + MARK, header)
  {
    hide Contains;
    if Contains(u + MARK, header) { MentionExtends(u, date, header); }
    if Contains(u + Footer(date), header) { MentionShrinks(u, date, header); }
  }

  lemma MentionExtends(u: string, date: string, header: string)
    requires Contains(u + MARK, header)
    ensures Contains(u + Footer(date), header)
  {
    var a, s := u + MARK, u + Footer(date);
    MarkIsThere(a, header, |a|);
    var k := LastAt(a, header);
    assert s == a + (" " + date + "*");
    assert header <= s[k..] by { assert s[k..] == a[k..] + (" " + date + "*"); }
    LastAtFromFinds(s, header, |s|, k);
  }

  lemma MentionShrinks(u: string, date: string, header: string)
    requires header != [] && header[0] == '#' && '#' !in date && !Contains(header, MARK)
    requires Contains(u + Footer(date), header)
    ensures Contains(u + MARK, header)
  {
    hide Contains;
    var a, s := u + MARK, u + Footer(date);
    var k := MentionedAt(s, header);
    MentionStartsBeforeMark(u, date, header, k);
    if k + |header| > |a| { SpanHoldsMark(u, date, header, k); }
    assert s == a + (" " + date + "*");
    FoundAt(a, header, k, " " + date + "*");
  }

  lemma MentionedAt(s: string, sub: string) returns (k: nat)
    requires Contains(s, sub)
    ensures k <= |s| && sub <= s[k..]
  {
    MarkIsThere(s, sub, |s|);
    k := LastAt(s, sub);
  }

  lemma MentionStartsBeforeMark(u: string, date: string, header: string, k: nat)
    requires header != [] && header[0] == '#' && '#' !in date
    requires k <= |u + Footer(date)| && header <= (u + Footer(date))[k..]
    ensures k < |u|
  {
    var s, f := u + Footer(date), Footer(date);
    assert s[k..][0] == s[k] == '#';
    NoHashInFooter(date);
    assert forall i | |u| <= i < |s| :: s[i] == f[i - |u|];
  }

  lemma NoHashInFooter(date: string)
    requires '#' !in date
    ensures '#' !in Footer(date)
  {
    assert '#' !in MARK;
  }

  lemma SpanHoldsMark(u: string, date: string, header: string, k: nat)
    requires k < |u| && header <= (u + Footer(date))[k..] && k + |header| > |u + MARK|
    ensures Contains(header, MARK)
  {
    var s, i := u + Footer(date), |u| - k;
    assert s[|u|..] == Footer(date) && MARK <= s[|u|..];
    assert header[i..] == s[k..][..|header|][i..];
    assert forall m | 0 <= m < |MARK| :: header[i..][m] == s[|u|..][m];
    LastAtFromFinds(header, MARK, |header|, i);
  }

  lemma FoundAt(a: string, sub: string, k: nat, z: string)
    requires k + |sub| <= |a| && sub <= (a + z)[k..]
    ensures Contains(a, sub)
  {
    assert forall m | 0 <= m < |sub| :: a[k..][m] == (a + z)[k..][m];
    LastAtFromFinds(a, sub, |a|, k);
  }

  lemma StampedStart(u: string, date: string)
    ensures MARK <= u + Footer(date) <==> MARK <= u + MARK
  {
    var l, m := u + Footer(date), u + MARK;
    assert l == m + (" " + date + "*");
    assert l[..|MARK|] == m[..|MARK|];
  }

  lemma FooterAtSame(o: Text, l: string, m: string, i: nat)
    requires MARK <= l <==> MARK <= m
    ensures FooterAt(o + [l, ""], i) <==> FooterAt(o + [m], i)
  {
    hide EndsWithRule;
    var p, q := o + [l, ""], o + [m];
    if i < |o| {
      assert p[i] == q[i] == o[i];
      if i + 1 < |o| { assert p[i + 1] == q[i + 1] == o[i + 1]; }
    }
  }

  lemma StampKeepsFooters(o: Text, u: string, date: string)
    ensures HasFooter(o + [u + Footer(date), ""]) <==> HasFooter(o + [u + MARK])
  {
    hide FooterAt, Footer;
    var p, q := o + [u + Footer(date), ""], o + [u + MARK];
    StampedStart(u, date);
    forall i: nat ensures FooterAt(p, i) <==> FooterAt(q, i) {
      FooterAtSame(o, u + Footer(date), u + MARK, i);
    }
    FooterWitness(p);
    FooterWitness(q);
    if HasFooter(p) {
      var i: nat :| i < |p| && FooterAt(p, i);
      assert FooterAt(q, i);
    }
    if HasFooter(q) {
      var i: nat :| i < |q| && FooterAt(q, i);
      assert FooterAt(p, i);
    }
  }

  lemma FooterWitness(t: Text)
    ensures forall i: nat | FooterAt(t, i) :: i < |t|
  {
  }

  lemma OneLineMentions(x: string, sub: string)
    ensures Mentions([x], sub) <==> Contains(x, sub)
  {
    hide Contains;
    assert [x][0] == x;
  }

  /** What the cut leaves mentions the header, or holds a footer, as what stands outside does. */
  lemma CutSeenFromBefore(a: Text, o: Text, line: string, header: string, date: string)
    requires o == Outside(a, header, false)
    requires header != [] && header[0] == '#' && '#' !in date && !Contains(header, MARK)
    ensures
      var p, q := a + [StampLine(line, date), ""], o + [Unmarked(line) + MARK];
      (Mentions(p, header) || !HasFooter(p)) <==> (Mentions(q, header) || !HasFooter(q))
  {
    hide Contains, Mentions, HasHeader, Outside, HasFooter, Footer, Unmarked;
    var end := [StampLine(line, date), ""];
    if HasHeader(a, header) {
      OutsideKeepsHeader(a, header, false);
      HeaderIsMentioned(a, header);
      HeaderIsMentioned(o, header);
      MentionsConcat(a, end, header);
      MentionsConcat(o, [Unmarked(line) + MARK], header);
    } else {
      NoHeaderNoChange(a, header, [], false);
      StampKeepsFooters(o, Unmarked(line), date);
      StampAddsNoMention(Unmarked(line), date, header);
      HashIsNotIn("", header);
      OneLineMentions(StampLine(line, date), header);
      OneLineMentions("", header);
      OneLineMentions(Unmarked(line) + MARK, header);
      assert end == [StampLine(line, date)] + [""];
      MentionsConcat([StampLine(line, date)], [""], header);
      MentionsConcat(o, end, header);
      MentionsConcat(o, [Unmarked(line) + MARK], header);
    }
  }

  /** Writing a section that has a header line again gives what writing it once at the later time would
      have given, exactly when `SameWhenRepeated` holds of the text before. */
  lemma SectionWriteIsIdempotentExactly(t: Text, section: string, content: Text, date: string, date': string)
    requires HasHeader(t, Header(section)) && NoHeadings(content)
    requires '*' !in date && '#' !in date && !Contains(Header(section), MARK)
    ensures Write(Write(t, section, content, date), section, content, date') == Write(t, section, content, date')
      <==> SameWhenRepeated(t, Header(section), content)
  {
    hide Rewrite, InSection, IsHeading, Outside, Contains, LastMark, HasHeader, NoHeadings, NoMark, StampNotBefore,
      Stamp, Mentions, HasFooter, Edit, Write, Unmarked, Footer;
    var header := Header(section);
    WriteIsStampedRewrite(t, section, content, date);
    if StampNotBefore(t, header, content) {
      TwiceIsOnceUnlessCutBefore(t, section, content, date, date');
    } else {
      var r, o := Rewrite(t, header, content, false), Outside(t, header, false);
      var j, k := LastMark(r), LastMark(o);
      CutBefore(t, header, content);
      CutWrites(t, section, content, date);
      TwiceAfterCut(t, section, content, date, date');
      assert header[0] == '#';
      CutSeenFromBefore(r[..j], o[..k], r[j], header, date);
    }
  }
}
