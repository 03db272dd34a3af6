/** What writing a section of the memory file does to the other sections: exactly when their lines
survive. */
module MarkdownSections {
  import opened MarkdownMemory

  // ----- the bodies of a section

  function UntilHeading(t: Text): Text {
    if t == [] || IsHeading(t[0]) then [] else [t[0]] + UntilHeading(t[1..])
  }

  function FromHeading(t: Text): Text {
    if t == [] || IsHeading(t[0]) then t else FromHeading(t[1..])
  }

  /** What stands under each header line of the section, up to the next heading. */
  function Bodies(t: Text, header: string): seq<Text> {
    if t == [] then []
    else (if IsHeader(t[0], header) then [UntilHeading(t[1..])] else []) + Bodies(t[1..], header)
  }

  /** The text from the heading that closes the last body of the section. */
  function Tail(t: Text, header: string): Text
    requires HasHeader(t, header)
  {
    if HasHeader(t[1..], header) then Tail(t[1..], header) else FromHeading(t[1..])
  }

  ghost predicate Closing(z: Text) {
    z == [] || IsHeading(z[0])
  }

  lemma {:induction false} FromHeadingCloses(t: Text, header: string)
    ensures Closing(FromHeading(t))
    ensures !HasHeader(t, header) ==> !HasHeader(FromHeading(t), header)
    decreases |t|
  {
    hide IsHeading, IsHeader;
    if t != [] && !IsHeading(t[0]) {
      assert HasHeader(t[1..], header) ==> HasHeader(t, header) by { HeaderInTail(t, header); }
      FromHeadingCloses(t[1..], header);
    }
  }

  lemma HeaderInTail(t: Text, header: string)
    requires t != []
    ensures HasHeader(t, header) <==> IsHeader(t[0], header) || HasHeader(t[1..], header)
  {
    hide IsHeader;
    if HasHeader(t[1..], header) {
      var i :| 0 <= i < |t[1..]| && IsHeader(t[1..][i], header);
      assert IsHeader(t[i + 1], header);
    }
    if HasHeader(t, header) && !IsHeader(t[0], header) {
      var i :| 0 <= i < |t| && IsHeader(t[i], header);
      assert t[1..][i - 1] == t[i];
    }
  }

  lemma {:induction false} TailCloses(t: Text, header: string)
    requires HasHeader(t, header)
    ensures Closing(Tail(t, header)) && !HasHeader(Tail(t, header), header)
    decreases |t|
  {
    hide IsHeading, IsHeader, FromHeading;
    if HasHeader(t[1..], header) {
      TailCloses(t[1..], header);
    } else {
      FromHeadingCloses(t[1..], header);
    }
  }

  lemma {:induction false} OutsideConcat(a: Text, b: Text, header: string, inSection: bool)
    ensures Outside(a + b, header, inSection)
         == Outside(a, header, inSection) + Outside(b, header, InSection(a, header, inSection))
    ensures InSection(a + b, header, inSection) == InSection(b, header, InSection(a, header, inSection))
    decreases |a|
  {
    hide IsHeading, Strip;
    if a == [] {
      assert a + b == b;
    } else {
      assert (a + b)[1..] == a[1..] + b;
      OutsideConcat(a[1..], b, header, if IsHeading(a[0]) then Strip(a[0]) == header else inSection);
    }
  }

  /** A text without a header of the section is left alone, but for what continues an open section. */
  lemma {:induction false} NoHeaderNoChange(t: Text, header: string, content: Text, inSection: bool)
    requires !HasHeader(t, header)
    ensures Rewrite(t, header, content, inSection) == Outside(t, header, inSection)
         == if inSection then FromHeading(t) else t
    ensures Bodies(t, header) == [] && (!inSection ==> !InSection(t, header, false))
    decreases |t|
  {
    if t != [] {
      HeaderInTail(t, header);
      hide IsHeading, Strip, Body;
      NoHeaderNoChange(t[1..], header, content, if IsHeading(t[0]) then false else inSection);
      NoHeaderNoChange(t[1..], header, content, false);
    }
  }

  /** A text with a header of the section is, after rewriting, a front that ends with the last header
      line, the new body, and the tail; the front keeps what stands outside the section. */
  lemma {:induction false} Split(t: Text, header: string, content: Text, inSection: bool) returns (front: Text)
    requires HasHeader(t, header) && NoHeadings(content)
    ensures Rewrite(t, header, content, inSection) == front + Body(content) + Tail(t, header)
    ensures Outside(t, header, inSection) == Outside(front, header, inSection) + Tail(t, header)
    ensures front != [] && IsHeader(front[|front| - 1], header) && InSection(front, header, inSection)
    ensures NoMark(content) ==> (NoMark(Outside(front, header, inSection)) <==> NoMark(front))
    decreases |t|
  {
    hide IsHeading, Strip, Body, Rewrite, Outside, InSection, Contains;
    var x, rest := t[0], t[1..];
    var now := if IsHeading(x) then Strip(x) == header else inSection;
    assert t == [x] + rest;
    Unfolded(x, rest, header, content, inSection);
    HeaderInTail(t, header);
    if HasHeader(rest, header) {
      var front' := Split(rest, header, content, now);
      if IsHeader(x, header) {
        front := [x] + (Body(content) + front');
        BodyIsPlain(content);
        OpenSectionDrops(Body(content), front', header, content);
        Unfolded(x, Body(content) + front', header, content, inSection);
        MarksWithBody(x, content, front', Outside(front', header, now));
      } else if IsHeading(x) || !inSection {
        front := [x] + front';
        Unfolded(x, front', header, content, inSection);
        assert Rewrite(t, header, content, inSection) == front + Body(content) + Tail(t, header);
        if NoMark(content) { MarksCons(x, front', Outside(front', header, now)); }
      } else {
        front := front';
        assert [] + [] + Rewrite(rest, header, content, now) == Rewrite(rest, header, content, now);
        assert [] + Outside(rest, header, now) == Outside(rest, header, now);
      }
    } else {
      front := [x];
      NoHeaderNoChange(rest, header, content, true);
      NothingInside(header, now);
      Unfolded(x, [], header, content, inSection);
      assert [x] + [] == [x];
    }
  }

  lemma NothingInside(header: string, inSection: bool)
    ensures Outside([], header, inSection) == [] && InSection([], header, inSection) == inSection
  {
  }

  lemma MarksCons(x: string, a: Text, b: Text)
    requires NoMark(b) <==> NoMark(a)
    ensures NoMark([x] + b) <==> NoMark([x] + a)
  {
    hide Contains;
    MarkInTail([x] + a);
    MarkInTail([x] + b);
    assert ([x] + a)[1..] == a && ([x] + b)[1..] == b;
  }

  lemma MarkInTail(t: Text)
    requires t != []
    ensures NoMark(t) <==> !Contains(t[0], MARK) && NoMark(t[1..])
  {
    hide Contains;
    assert forall i | 0 < i < |t| :: t[1..][i - 1] == t[i];
  }

  lemma MarksWithBody(x: string, content: Text, a: Text, b: Text)
    requires NoMark(content) ==> (NoMark(b) <==> NoMark(a))
    ensures NoMark(content) ==> (NoMark([x] + b) <==> NoMark([x] + (Body(content) + a)))
  {
    hide Contains;
    if NoMark(content) {
      BodyHasNoMark(content);
      var c := Body(content) + a;
      assert forall i | 0 <= i < |a| :: c[|Body(content)| + i] == a[i];
      assert NoMark(c) <==> NoMark(a);
      MarksCons(x, c, b);
    }
  }

  // ----- stamping

  /** Where the text is cut and stamped: at its last mark, else at its last line. */
  function StampAt(t: Text): (j: nat)
    requires t != []
    ensures j < |t|
  {
    if LastMark(t) >= 0 then LastMark(t) else |t| - 1
  }

  /** The line up to its last mark. */
  function Unmarked(line: string): string {
    if Contains(line, MARK) then line[..LastAt(line, MARK)] else line
  }

  lemma StampCuts(t: Text, date: string)
    requires t != []
    ensures Stamp(t, date) == t[..StampAt(t)] + [Unmarked(t[StampAt(t)]) + Footer(date), ""]
  {
    hide Footer;
    NoMarkMeans(t);
  }

  lemma StampedLineHasMark(u: string, date: string)
    ensures Contains(u + Footer(date), MARK)
  {
    var line := u + Footer(date);
    assert line[|u|..] == Footer(date);
    LastAtFromFinds(line, MARK, |line|, |u|);
  }

  predicate IsBlank(line: string) {
    Strip(line) == ""
  }

  predicate IsSolid(line: string) {
    !IsBlank(line) && !Contains(line, MARK)
  }

  /** The lines that are neither blank nor carry a time stamp. */
  function Solid(t: Text): Text {
    if t == [] then [] else (if IsSolid(t[0]) then [t[0]] else []) + Solid(t[1..])
  }

  lemma {:induction false} SolidConcat(a: Text, b: Text)
    ensures Solid(a + b) == Solid(a) + Solid(b)
    decreases |a|
  {
    hide IsSolid;
    if a == [] {
      assert a + b == b;
    } else {
      var x := if IsSolid(a[0]) then [a[0]] else [];
      assert (a + b)[1..] == a[1..] + b;
      SolidConcat(a[1..], b);
      assert x + (Solid(a[1..]) + Solid(b)) == x + Solid(a[1..]) + Solid(b);
    }
  }

  lemma {:induction false} NothingSolid(t: Text)
    ensures Solid(t) == [] <==> forall i | 0 <= i < |t| :: !IsSolid(t[i])
    decreases |t|
  {
    hide IsSolid;
    if t != [] {
      NothingSolid(t[1..]);
      assert forall i | 0 < i < |t| :: t[1..][i - 1] == t[i];
    }
  }

  lemma HeadingIsNotBlank(line: string)
    requires IsHeading(line)
    ensures !IsBlank(line)
  {
  }

  /** Of the lines from the cut on, only a stamped and an empty line take the place. */
  lemma StampedEndIsNotSolid(u: string, date: string, header: string, inSection: bool)
    ensures Solid(Outside([u + Footer(date), ""], header, inSection)) == []
  {
    hide Strip, Footer, Contains, IsHeading, Outside;
    var line, end := u + Footer(date), [u + Footer(date), ""];
    StampedLineHasMark(u, date);
    var now := if IsHeading(line) then Strip(line) == header else inSection;
    Unfolded(line, [""], header, [], inSection);
    Unfolded("", [], header, [], now);
    EmptyLineIsPlain();
    EmptyIsBlank();
    NothingInside(header, now);
    assert [line] + [""] == end && [""] + [] == [""];
    var o := Outside(end, header, inSection);
    assert forall i | 0 <= i < |o| :: o[i] == line || o[i] == "";
    NothingSolid(o);
  }

  lemma EmptyIsBlank()
    ensures IsBlank("")
  {
  }

  /** What stamping takes from the other sections is what stands outside from the cut on. */
  lemma StampLoses(r: Text, header: string, date: string)
    requires r != []
    ensures
      var j := StampAt(r);
      Solid(Outside(Stamp(r, date), header, false)) == Solid(Outside(r, header, false)) <==>
        Solid(Outside(r[j..], header, InSection(r[..j], header, false))) == []
  {
    hide Outside, InSection, Stamp, StampAt, Solid, Footer, Unmarked;
    var j := StampAt(r);
    var st := InSection(r[..j], header, false);
    var end := [Unmarked(r[j]) + Footer(date), ""];
    StampCuts(r, date);
    OutsideConcat(r[..j], end, header, false);
    OutsideConcat(r[..j], r[j..], header, false);
    assert r[..j] + r[j..] == r;
    StampedEndIsNotSolid(Unmarked(r[j]), date, header, st);
    SolidConcat(Outside(r[..j], header, false), Outside(end, header, st));
    SolidConcat(Outside(r[..j], header, false), Outside(r[j..], header, st));
  }

  // ----- which writes lose lines of other sections

  /** The section has a header line, and writing it leaves the other sections alone: when the section is
      last, the content or nothing else carries a stamp (or the header line itself does, last); when it
      is not, the last stamp stands behind it with nothing but blank lines after it, or there is no
      stamp at all and the last line is blank. */
  ghost predicate KeepsOthers(t: Text, header: string, content: Text)
    requires HasHeader(t, header)
  {
    var o, tail := Outside(t, header, false), Tail(t, header);
    if tail == [] then !NoMark(content) || LastMark(o) == -1 || LastMark(o) == |o| - 1
    else if NoMark(tail) then NoMark(o) && NoMark(content) && IsBlank(tail[|tail| - 1])
    else forall i | LastMark(tail) < i < |tail| :: IsBlank(tail[i])
  }

  lemma BodyMarks(content: Text)
    ensures NoMark(Body(content)) <==> NoMark(content)
  {
    hide Contains;
    if NoMark(content) { BodyHasNoMark(content); } else {
      var i :| 0 <= i < |content| && Contains(content[i], MARK);
      assert Body(content)[i + 1] == content[i];
    }
  }

  lemma LastMarkAt(front: Text, content: Text, tail: Text)
    ensures
      LastMark(front + Body(content) + tail) ==
        if !NoMark(tail) then |front| + |Body(content)| + LastMark(tail)
        else if !NoMark(content) then |front| + LastMark(Body(content))
        else LastMark(front)
  {
    hide LastMark, NoMark, Body;
    LastMarkConcat(front + Body(content), tail);
    LastMarkConcat(front, Body(content));
    BodyMarks(content);
  }

  /** What stands outside from the cut on, where the last mark is behind the section. */
  lemma CutInTail(tail: Text, header: string, m: nat, inSection: bool)
    requires Closing(tail) && !HasHeader(tail, header) && m < |tail|
    ensures Outside(tail[m..], header, InSection(tail[..m], header, inSection)) == tail[m..]
  {
    hide IsHeading, Strip;
    if m == 0 {
      assert tail[0..] == tail && tail[..0] == [];
      NoHeaderNoChange(tail, header, [], true);
      NoHeaderNoChange(tail, header, [], false);
    } else {
      PrefixHasNoHeader(tail, header, m);
      assert tail[..m] == [tail[0]] + tail[1..m];
      Unfolded(tail[0], tail[1..m], header, [], inSection);
      Unfolded(tail[0], tail[1..m], header, [], false);
      NoHeaderNoChange(tail[..m], header, [], false);
      NoHeaderNoChange(tail[m..], header, [], false);
    }
  }

  lemma PrefixHasNoHeader(t: Text, header: string, m: nat)
    requires !HasHeader(t, header) && m <= |t|
    ensures !HasHeader(t[..m], header) && !HasHeader(t[m..], header)
  {
    hide IsHeader;
    assert forall i | 0 <= i < m :: t[..m][i] == t[i];
    assert forall i | m <= i < |t| :: t[m..][i - m] == t[i];
  }

  /** The lines outside the section that the stamp of the rewritten text cuts away. */
  ghost function CutAway(front: Text, content: Text, tail: Text, header: string): Text
    requires front != []
  {
    var r := front + Body(content) + tail;
    Outside(r[StampAt(r)..], header, InSection(r[..StampAt(r)], header, false))
  }

  /** The parts of a rewritten text, as `Split` gives them. */
  ghost predicate Parts(front: Text, content: Text, tail: Text, header: string) {
    && front != [] && IsHeader(front[|front| - 1], header) && InSection(front, header, false)
    && NoHeadings(content) && Closing(tail) && !HasHeader(tail, header)
  }

  lemma CutBehind(front: Text, content: Text, tail: Text, header: string, m: nat)
    requires Parts(front, content, tail, header) && m < |tail|
    requires StampAt(front + Body(content) + tail) == |front| + |Body(content)| + m
    ensures CutAway(front, content, tail, header) == tail[m..]
  {
    hide Parts, Outside, InSection, Body, IsHeading, Strip, StampAt, HasHeader, Closing;
    var r, fb := front + Body(content) + tail, front + Body(content);
    assert r[|fb| + m..] == tail[m..] && r[..|fb| + m] == fb + tail[..m];
    OutsideConcat(fb, tail[..m], header, false);
    PartsClose(front, content, tail, header);
    CutInTail(tail, header, m, InSection(fb, header, false));
  }

  lemma PartsClose(front: Text, content: Text, tail: Text, header: string)
    requires Parts(front, content, tail, header)
    ensures Closing(tail) && !HasHeader(tail, header) && Outside(tail, header, true) == tail
    ensures NoHeadings(Body(content)) && InSection(front, header, false)
  {
    NoHeaderNoChange(tail, header, content, true);
    BodyIsPlain(content);
  }

  lemma CutInBody(front: Text, content: Text, tail: Text, header: string, b: nat)
    requires Parts(front, content, tail, header) && b < |Body(content)|
    requires StampAt(front + Body(content) + tail) == |front| + b
    ensures CutAway(front, content, tail, header) == tail
  {
    hide Parts, Outside, InSection, Body, IsHeading, Strip, StampAt;
    var body := Body(content);
    var r := front + body + tail;
    assert r[|front| + b..] == body[b..] + tail && r[..|front| + b] == front + body[..b];
    OutsideConcat(front, body[..b], header, false);
    PartsClose(front, content, tail, header);
    OpenSectionDrops(body[..b], [], header, content);
    NothingInside(header, true);
    assert body[..b] + [] == body[..b];
    OpenSectionDrops(body[b..], tail, header, content);
  }

  lemma CutInFront(front: Text, content: Text, tail: Text, header: string, j: nat)
    requires Parts(front, content, tail, header) && j < |front|
    requires StampAt(front + Body(content) + tail) == j
    ensures
      var st := InSection(front[..j], header, false);
      var x := front[|front| - 1];
      if j == |front| - 1 then CutAway(front, content, tail, header) == [x] + tail
      else CutAway(front, content, tail, header) == Outside(front[j..|front| - 1], header, st) + [x] + tail
  {
    hide Parts, Outside, InSection, Body, IsHeading, Strip, StampAt;
    var body, x := Body(content), front[|front| - 1];
    var r := front + body + tail;
    var st := InSection(front[..j], header, false);
    var mid := front[j..|front| - 1];
    assert r[..j] == front[..j] && r[j..] == mid + ([x] + (body + tail));
    PartsClose(front, content, tail, header);
    LastIsHeader(front, content, tail, header);
    OutsideConcat(mid, [x] + (body + tail), header, st);
    Unfolded(x, body + tail, header, content, InSection(mid, header, st));
    OpenSectionDrops(body, tail, header, content);
    if j == |front| - 1 {
      NothingInside(header, st);
      assert mid == [] && [] + ([x] + tail) == [x] + tail;
    }
  }

  lemma LastIsHeader(front: Text, content: Text, tail: Text, header: string)
    requires Parts(front, content, tail, header)
    ensures var x := front[|front| - 1]; IsHeading(x) && Strip(x) == header && !IsBlank(x)
  {
  }

  lemma BehindLastMark(tail: Text)
    requires !NoMark(tail)
    ensures 0 <= LastMark(tail)
    ensures Solid(tail[LastMark(tail)..]) == [] <==> forall i | LastMark(tail) < i < |tail| :: IsBlank(tail[i])
  {
    hide IsBlank, Contains, NoMark, Solid, LastMark;
    NoMarkMeans(tail);
    var m := LastMark(tail);
    var after := tail[m + 1..];
    assert tail[m..] == [tail[m]] + after;
    SolidConcat([tail[m]], after);
    NothingSolid([tail[m]]);
    NothingSolid(after);
    forall i | 0 <= i < |after| ensures IsSolid(after[i]) <==> !IsBlank(tail[m + 1 + i]) {
      assert after[i] == tail[m + 1 + i];
    }
    forall i | m < i < |tail| ensures after[i - m - 1] == tail[i] {
    }
  }

  lemma SolidHead(x: string, t: Text)
    requires !IsBlank(x)
    ensures Solid([x] + t) == [] <==> Contains(x, MARK) && Solid(t) == []
  {
    hide IsBlank, Contains;
    assert ([x] + t)[1..] == t;
  }

  lemma UnmarkedTailIsSolid(tail: Text)
    requires Closing(tail) && NoMark(tail)
    ensures Solid(tail) == [] <==> tail == []
  {
    hide IsBlank, Contains, IsHeading;
    if tail != [] {
      HeadingIsNotBlank(tail[0]);
      SolidHead(tail[0], tail[1..]);
      assert tail == [tail[0]] + tail[1..];
    }
  }

  /** Where the last mark stands decides whether the cut takes a solid line. */
  lemma CutDecides(front: Text, content: Text, tail: Text, header: string)
    requires Parts(front, content, tail, header)
    requires NoMark(content) ==> (NoMark(Outside(front, header, false)) <==> NoMark(front))
    ensures
      var o := Outside(front, header, false) + tail;
      Solid(CutAway(front, content, tail, header)) == [] <==>
        if tail == [] then !NoMark(content) || LastMark(o) == -1 || LastMark(o) == |o| - 1
        else if NoMark(tail) then NoMark(o) && NoMark(content) && IsBlank(tail[|tail| - 1])
        else forall i | LastMark(tail) < i < |tail| :: IsBlank(tail[i])
  {
    hide Parts, Outside, Body, NoMark, LastMark, Solid, IsBlank, CutAway, Closing, HasHeader;
    LastMarkAt(front, content, tail);
    PartsClose(front, content, tail, header);
    if !NoMark(tail) {
      BehindLastMark(tail);
      CutBehind(front, content, tail, header, LastMark(tail));
    } else if !NoMark(content) {
      BodyMarks(content);
      NoMarkMeans(Body(content));
      CutInBody(front, content, tail, header, LastMark(Body(content)));
      UnmarkedTailIsSolid(tail);
      MarksOf(Outside(front, header, false), tail);
    } else {
      MarksOf(Outside(front, header, false), tail);
      NoMarkMeans(front);
      UnmarkedTailIsSolid(tail);
      if NoMark(front) {
        NothingMarked(front, content, tail, header);
      } else {
        MarkedInFront(front, content, tail, header);
      }
    }
  }

  lemma MarksOf(a: Text, b: Text)
    ensures NoMark(a + b) <==> NoMark(a) && NoMark(b)
    ensures LastMark(a + b) == -1 <==> NoMark(a + b)
  {
    hide Contains, LastMark;
    NoMarkMeans(a + b);
    assert forall i | 0 <= i < |a| :: (a + b)[i] == a[i];
    assert forall i | 0 <= i < |b| :: (a + b)[|a| + i] == b[i];
  }

  /** No mark anywhere: the stamp goes onto the last line. */
  lemma NothingMarked(front: Text, content: Text, tail: Text, header: string)
    requires Parts(front, content, tail, header) && LastMark(front + Body(content) + tail) == -1
    requires NoMark(tail)
    ensures Solid(CutAway(front, content, tail, header)) == [] <==> tail == [] || IsBlank(tail[|tail| - 1])
  {
    hide Parts, Outside, NoMark, LastMark, CutAway, Closing, HasHeader, IsBlank, Contains, Solid;
    if tail == [] {
      assert front + Body(content) + tail == front + Body(content);
      CutInBody(front, content, tail, header, |Body(content)| - 1);
      NothingSolid([]);
    } else {
      var m := |tail| - 1;
      CutBehind(front, content, tail, header, m);
      assert tail[m..] == [tail[m]];
      NothingSolid(tail[m..]);
      NotMarkedAt(tail, m);
    }
  }

  lemma NotMarkedAt(t: Text, i: nat)
    requires NoMark(t) && i < |t|
    ensures !Contains(t[i], MARK)
  {
  }

  /** The last mark stands before the new body: the cut takes the section, unless that mark is on its
      header line. */
  lemma MarkedInFront(front: Text, content: Text, tail: Text, header: string)
    requires Parts(front, content, tail, header) && NoMark(tail) && !NoMark(front)
    requires LastMark(front + Body(content) + tail) == LastMark(front) >= 0
    ensures
      var o := Outside(front, header, false) + tail;
      && (tail == [] ==> (Solid(CutAway(front, content, tail, header)) == [] <==> LastMark(o) == |o| - 1))
      && (tail != [] ==> Solid(CutAway(front, content, tail, header)) != [])
  {
    hide Parts, Outside, NoMark, CutAway, Closing, HasHeader, IsBlank, Contains, Solid, Body, IsHeading, Strip,
      InSection;
    var j, x := LastMark(front), front[|front| - 1];
    var st := InSection(front[..j], header, false);
    CutInFront(front, content, tail, header, j);
    PartsClose(front, content, tail, header);
    LastIsHeader(front, content, tail, header);
    UnmarkedTailIsSolid(tail);
    SolidHead(x, tail);
    NoMarkMeans(front);
    EndsWithHeaderLine(front, header);
    if j < |front| - 1 {
      SolidConcat(Outside(front[j..|front| - 1], header, st), [x] + tail);
      assert Outside(front[j..|front| - 1], header, st) + [x] + tail
          == Outside(front[j..|front| - 1], header, st) + ([x] + tail);
    }
    if tail == [] {
      var o := Outside(front, header, false) + tail;
      assert o == Outside(front, header, false);
      NoMarkMeans(o);
    }
  }

  lemma EndsWithHeaderLine(front: Text, header: string)
    requires front != [] && IsHeader(front[|front| - 1], header)
    ensures var o := Outside(front, header, false); o != [] && o[|o| - 1] == front[|front| - 1]
  {
    hide Outside, IsHeading, Strip;
    var x, init := front[|front| - 1], front[..|front| - 1];
    assert front == init + [x] && [x] + [] == [x];
    OutsideConcat(init, [x], header, false);
    Unfolded(x, [], header, [], InSection(init, header, false));
    NothingInside(header, true);
    NothingInside(header, false);
  }

  lemma WriteIsStampedRewrite(t: Text, section: string, content: Text, date: string)
    requires HasHeader(t, Header(section))
    ensures t != [] && Rewrite(t, Header(section), content, false) != []
    ensures Write(t, section, content, date) == Stamp(Rewrite(t, Header(section), content, false), date)
  {
    HeaderIsMentioned(t, Header(section));
    EditNotEmpty(t, section, content);
  }

  /** Writing a section that has a header line keeps every other section's lines in order, but for
      blank lines and time stamps, exactly when `KeepsOthers` holds of the text before. */
  lemma OthersKeptExactly(t: Text, section: string, content: Text, date: string)
    requires HasHeader(t, Header(section)) && NoHeadings(content)
    ensures
      var r, header := Write(t, section, content, date), Header(section);
      Solid(Outside(r, header, false)) == Solid(Outside(t, header, false)) <==> KeepsOthers(t, header, content)
  {
    hide Rewrite, Outside, Stamp, Tail, Solid, HasHeader, IsHeader, Body, InSection, NoMark, LastMark, NoHeadings, Edit;
    var header := Header(section);
    var r := Rewrite(t, header, content, false);
    WriteIsStampedRewrite(t, section, content, date);
    RewriteKeepsOthers(t, header, content, false);
    StampLoses(r, header, date);
    var front := Split(t, header, content, false);
    TailCloses(t, header);
    CutDecides(front, content, Tail(t, header), header);
  }
}
