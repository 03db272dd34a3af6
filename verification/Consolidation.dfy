/** Consolidating facts into the memory file: every named section then holds its content, and no other
section's body has changed. */
module Consolidation {
  import opened MarkdownMemory
  import opened MarkdownSections
  import opened SectionContents

  // ----- memory files

  ghost predicate NoStampLine(t: Text) {
    forall i | 0 <= i < |t| :: !(MARK <= t[i])
  }

  ghost predicate IsStamp(line: string) {
    MARK <= line && LastAt(line, MARK) == 0
  }

  /** Some text `a`, a rule, one time stamp, and empty lines. */
  ghost predicate IsMemoryFile(t: Text, a: Text) {
    && |a| + 2 <= |t| && t[..|a|] == a && t[|a|] == "---" && IsStamp(t[|a| + 1])
    && (forall i | |a| + 1 < i < |t| :: t[i] == "") && NoStampLine(a)
  }

  /** The text before the footer after a section has been written. */
  function NextText(a: Text, header: string, content: Text): Text {
    if HasHeader(a, header) then Rewrite(a, header, content, false) else a + ([header] + Body(content))
  }

  /** The fact can be written into the file: its section exists and is closed before the footer, or is
      new, properly named and not so much as mentioned. */
  ghost predicate Fits(t: Text, a: Text, f: Fact) {
    var header := Header(f.section);
    && NoHeadings(f.content) && NoStampLine(f.content) && '*' !in f.date && '#' !in f.date
    && if HasHeader(a, header) then !InSection(a, header, false) else !Mentions(t, header) && Strip(header) == header
  }

  // ----- the footer

  lemma FooterIsPlain(t: Text, a: Text)
    requires IsMemoryFile(t, a)
    ensures NoHeadings(t[|a|..])
  {
    hide IsHeading, LastAt;
    var stamp, rest := t[|a| + 1], t[|a|..];
    StampLineIsPlain(stamp);
    EmptyLineIsPlain();
    RuleIsPlain();
    assert rest[0] == "---" && rest[1] == stamp;
    assert forall i | 1 < i < |rest| :: rest[i] == t[|a| + i];
  }

  lemma StampLineIsPlain(stamp: string)
    requires MARK <= stamp
    ensures !IsHeading(stamp)
  {
    assert "" + stamp == stamp;
    MarkedHeading("", stamp);
  }

  lemma RuleIsPlain()
    ensures !IsHeading("---")
  {
  }

  /** Stamping a text that ends like a memory file. */
  lemma StampFile(t: Text, a: Text, b: Text, date: string)
    requires IsMemoryFile(t, a)
    ensures Stamp(b + t[|a|..], date) == b + ["---", Footer(date), ""]
  {
    hide Footer;
    var r := b + t[|a|..];
    assert r[|b| + 1] == t[|a| + 1] && r[|b|] == "---";
    EmptyLineHasNoMark();
    assert forall i | |b| + 1 < i < |r| :: r[i] == "";
    LastMarkIs(r, |b| + 1);
    assert r[|b| + 1][..0] + Footer(date) == Footer(date);
    assert r[..|b| + 1] == b + ["---"];
  }

  lemma WrittenIsMemoryFile(b: Text, date: string)
    requires NoStampLine(b) && '*' !in date
    ensures IsMemoryFile(b + ["---", Footer(date), ""], b)
  {
    hide Footer;
    FooterIsStamp(date);
    var r := b + ["---", Footer(date), ""];
    assert r[|b|] == "---" && r[|b| + 1] == Footer(date);
  }

  lemma FooterIsStamp(date: string)
    requires '*' !in date
    ensures IsStamp(Footer(date))
  {
    FooterFacts(date);
  }

  // ----- writing one fact

  lemma {:induction false} RewriteNoStampLine(t: Text, header: string, content: Text, inSection: bool)
    requires NoStampLine(t) && NoStampLine(content)
    ensures NoStampLine(Rewrite(t, header, content, inSection))
    decreases |t|
  {
    hide IsHeading, Strip;
    if t != [] {
      RewriteNoStampLine(t[1..], header, content, if IsHeading(t[0]) then Strip(t[0]) == header else inSection);
      assert NoStampLine(Body(content));
    }
  }

  lemma WriteExisting(t: Text, a: Text, section: string, content: Text, date: string)
    requires IsMemoryFile(t, a) && HasHeader(a, Header(section)) && !InSection(a, Header(section), false)
    ensures t != []
    ensures Write(t, section, content, date)
         == Rewrite(a, Header(section), content, false) + ["---", Footer(date), ""]
  {
    hide Rewrite, InSection, IsHeading, Strip, Body, Stamp, Footer, IsHeader;
    var header, rest := Header(section), t[|a|..];
    assert t == a + rest;
    HeaderInPrefix(a, rest, header);
    WriteIsStampedRewrite(t, section, content, date);
    RewriteConcat(a, rest, header, content, false);
    FooterIsPlain(t, a);
    PlainHasNoHeader(rest, header);
    NoHeaderNoChange(rest, header, content, false);
    StampFile(t, a, Rewrite(a, header, content, false), date);
  }

  lemma HeaderInPrefix(a: Text, b: Text, header: string)
    requires HasHeader(a, header)
    ensures HasHeader(a + b, header)
  {
    hide IsHeader;
    var i :| 0 <= i < |a| && IsHeader(a[i], header);
    assert (a + b)[i] == a[i];
  }

  lemma PlainHasNoHeader(t: Text, header: string)
    requires NoHeadings(t)
    ensures !HasHeader(t, header)
  {
    hide Strip;
  }

  /** A new section goes between the text and the rule. */
  lemma {:induction false} InsertBeforeRule(t: Text, a: Text, header: string, content: Text)
    requires IsMemoryFile(t, a)
    ensures InsertBeforeFooters(t, header, content) == a + ([header] + Body(content)) + t[|a|..]
    decreases |a|
  {
    hide IsMemoryFile, FooterAt, Body;
    BeforeFooter(t, a);
    if a == [] {
      NoFooterAfterRule(t);
      RuleSplice(t[0], header, content, t[1..]);
      assert t[0..] == t && t == ["---"] + t[1..];
    } else {
      NoFooterBefore(t, a);
      FileTail(t, a);
      InsertBeforeRule(t[1..], a[1..], header, content);
      assert t[1..][|a| - 1..] == t[|a|..];
      InsertedCons(t[0], a, [header] + Body(content), t[|a|..]);
    }
  }

  lemma RuleSplice(rule: string, header: string, content: Text, rest: Text)
    requires rule == "---"
    ensures [rule[..|rule| - 3] + header, ""] + content + ["", "---"] + rest
         == [] + ([header] + Body(content)) + (["---"] + rest)
  {
    assert rule[..0] + header == header;
  }

  lemma InsertedCons(x: string, a: Text, section: Text, rest: Text)
    requires a != [] && a[0] == x
    ensures [x] + (a[1..] + section + rest) == a + section + rest
  {
    assert a == [x] + a[1..];
  }

  lemma FileTail(t: Text, a: Text)
    requires IsMemoryFile(t, a) && a != []
    ensures IsMemoryFile(t[1..], a[1..])
  {
    var u, b := t[1..], a[1..];
    assert u[..|b|] == b && u[|b|] == t[|a|] && u[|b| + 1] == t[|a| + 1];
    assert forall i | |b| + 1 < i < |u| :: u[i] == t[i + 1];
    assert forall i | 0 <= i < |b| :: b[i] == a[i + 1];
  }

  lemma NoFooterBefore(t: Text, a: Text)
    requires IsMemoryFile(t, a) && a != []
    ensures !FooterAt(t, 0)
  {
    if |a| > 1 { assert t[1] == a[1]; }
  }

  lemma NoFooterAfterRule(t: Text)
    requires IsMemoryFile(t, [])
    ensures FooterAt(t, 0)
    ensures forall header, content :: InsertBeforeFooters(t[1..], header, content) == t[1..]
  {
    var u := t[1..];
    forall i: nat | i < |u| ensures !FooterAt(u, i) {
      if i + 1 < |u| { assert u[i + 1] == t[i + 2]; }
    }
    forall header, content ensures InsertBeforeFooters(u, header, content) == u {
      NoFooterNoInsert(u, header, content);
    }
  }

  lemma WriteNew(t: Text, a: Text, section: string, content: Text, date: string)
    requires IsMemoryFile(t, a) && !Mentions(t, Header(section))
    ensures t != []
    ensures Write(t, section, content, date)
         == a + ([Header(section)] + Body(content)) + ["---", Footer(date), ""]
  {
    hide Stamp, Footer, InsertBeforeFooters, Mentions, Body;
    InsertBeforeRule(t, a, Header(section), content);
    RuleIsFooter(t, a);
    StampFile(t, a, a + ([Header(section)] + Body(content)), date);
  }

  lemma RuleIsFooter(t: Text, a: Text)
    requires IsMemoryFile(t, a)
    ensures HasFooter(t)
  {
    assert FooterAt(t, |a|);
  }

  /** Writing a fact that fits leaves a memory file with the next text. */
  lemma WriteFact(t: Text, a: Text, f: Fact)
    requires IsMemoryFile(t, a) && Fits(t, a, f)
    ensures t != []
    ensures
      var r, b := Write(t, f.section, f.content, f.date), NextText(a, Header(f.section), f.content);
      r == b + ["---", Footer(f.date), ""] && IsMemoryFile(r, b)
  {
    hide IsMemoryFile, HasHeader, Rewrite, Footer, InSection, Mentions, Strip, Write;
    var header := Header(f.section);
    if HasHeader(a, header) {
      WriteExisting(t, a, f.section, f.content, f.date);
      BeforeFooter(t, a);
      RewriteNoStampLine(a, header, f.content, false);
    } else {
      WriteNew(t, a, f.section, f.content, f.date);
      BeforeFooter(t, a);
      NewLines(f.section, f.content);
    }
    WrittenIsMemoryFile(NextText(a, header, f.content), f.date);
  }

  lemma NewLines(section: string, content: Text)
    requires NoStampLine(content)
    ensures NoStampLine([Header(section)] + Body(content))
  {
    var header := Header(section);
    assert header[0] == '#';
    assert forall i | 0 <= i < |Body(content)| :: !(MARK <= Body(content)[i]);
  }

  lemma BeforeFooter(t: Text, a: Text)
    requires IsMemoryFile(t, a)
    ensures NoStampLine(a) && |a| + 2 <= |t| && t[..|a|] == a && t[|a|] == "---"
  {
  }

  // ----- what the next text holds

  ghost predicate Holds(a: Text, f: Fact) {
    Bodies(a, Header(f.section)) != [] && AllHold(Bodies(a, Header(f.section)), f.content)
  }

  lemma AppendedBodies(a: Text, header: string, content: Text, other: string)
    requires Strip(header) == header && IsHeading(header) && NoHeadings(content)
    ensures Bodies(a + ([header] + Body(content)), other)
         == Bodies(a, other) + if other == header then [Body(content)] else []
  {
    hide Bodies, Strip, UntilHeading, Body;
    var body := Body(content);
    BodyIsPlain(content);
    BodiesConcat(a, [header] + body, other);
    BodiesCons(header, body, other);
    NoBodies(other);
    assert body + [] == body;
    UntilHeadingOf(body, []);
    PlainHasNoBodies(body, [], other);
  }

  lemma HeaderIsHeading(section: string)
    requires Strip(Header(section)) == Header(section)
    ensures IsHeading(Header(section))
  {
  }

  /** The written section holds its content; the bodies of all others are as before. */
  lemma NextTextHolds(t: Text, a: Text, f: Fact)
    requires IsMemoryFile(t, a) && Fits(t, a, f)
    ensures
      var b := NextText(a, Header(f.section), f.content);
      Holds(b, f) && forall other | other != Header(f.section) :: Bodies(b, other) == Bodies(a, other)
  {
    hide Bodies, HasHeader, Rewrite, IsMemoryFile, Strip, NoHeadings, IsHeading, NoStampLine, Mentions, InSection;
    var header := Header(f.section);
    var b := NextText(a, header, f.content);
    HeaderHasBody(a, header);
    if HasHeader(a, header) {
      RewriteSetsBodies(a, header, f.content, false);
      forall other | other != header ensures Bodies(b, other) == Bodies(a, other) {
        RewriteKeepsBodies(a, header, f.content, false, other);
      }
    } else {
      HeaderIsHeading(f.section);
      forall other ensures Bodies(b, other) == Bodies(a, other) + if other == header then [Body(f.content)] else [] {
        AppendedBodies(a, header, f.content, other);
      }
    }
  }

  // ----- the facts that are still to be written

  lemma {:induction false} PlainKeepsOpen(p: Text, z: Text, header: string, inSection: bool)
    requires NoHeadings(p)
    ensures InSection(p + z, header, inSection) == InSection(z, header, inSection)
    decreases |p|
  {
    hide IsHeading, Strip;
    if p == [] {
      assert p + z == z;
    } else {
      assert (p + z)[1..] == p[1..] + z;
      PlainKeepsOpen(p[1..], z, header, inSection);
    }
  }

  lemma {:induction false} RewriteKeepsOpen(t: Text, header: string, content: Text, inSection: bool,
                                            other: string, open: bool)
    requires NoHeadings(content)
    ensures InSection(Rewrite(t, header, content, inSection), other, open) == InSection(t, other, open)
    decreases |t|
  {
    hide IsHeading, Strip, Body;
    if t == [] {
      NothingToRewrite(header, content, inSection);
    } else {
      var x, now := t[0], if IsHeading(t[0]) then Strip(t[0]) == header else inSection;
      var rest := Rewrite(t[1..], header, content, now);
      var open' := if IsHeading(x) then Strip(x) == other else open;
      RewriteKeepsOpen(t[1..], header, content, now, other, open');
      assert t == [x] + t[1..];
      Unfolded(x, t[1..], header, content, inSection);
      Unfolded(x, t[1..], other, content, open);
      if IsHeading(x) && now {
        BodyIsPlain(content);
        assert [x] + Body(content) + rest == [x] + (Body(content) + rest);
        Unfolded(x, Body(content) + rest, other, content, open);
        PlainKeepsOpen(Body(content), rest, other, open');
      } else if IsHeading(x) || !inSection {
        assert [x] + [] + rest == [x] + rest;
        Unfolded(x, rest, other, content, open);
      } else {
        assert [] + [] + rest == rest;
      }
    }
  }

  /** Neither the fact's content nor its header mentions the other's header. */
  ghost predicate Silent(f: Fact, g: Fact) {
    !Mentions(f.content, Header(g.section)) && !Contains(Header(f.section), Header(g.section))
  }

  lemma BodyIsSilent(f: Fact, header: string)
    requires header != [] && header[0] == '#'
    ensures Mentions(Body(f.content), header) <==> Mentions(f.content, header)
  {
    HashIsNotIn("", header);
    EmptyLineMentionsNot(header);
    MentionsConcat([""] + f.content, [""], header);
    MentionsConcat([""], f.content, header);
  }

  lemma EmptyLineMentionsNot(header: string)
    requires !Contains("", header)
    ensures !Mentions([""], header)
  {
  }

  lemma {:induction false} RewriteIsSilent(t: Text, header: string, content: Text, inSection: bool, sub: string)
    requires !Mentions(t, sub) && !Mentions(Body(content), sub)
    ensures !Mentions(Rewrite(t, header, content, inSection), sub)
    decreases |t|
  {
    hide IsHeading, Strip, Body, Contains, Mentions;
    if t == [] {
      NothingToRewrite(header, content, inSection);
    } else {
      var x, now := t[0], if IsHeading(t[0]) then Strip(t[0]) == header else inSection;
      var rest := Rewrite(t[1..], header, content, now);
      assert t == [x] + t[1..];
      MentionsConcat([x], t[1..], sub);
      RewriteIsSilent(t[1..], header, content, now, sub);
      Unfolded(x, t[1..], header, content, inSection);
      NothingMentions(sub);
      MentionsConcat([x], Body(content), sub);
      MentionsConcat([x] + Body(content), rest, sub);
      MentionsConcat([x], rest, sub);
      assert [x] + [] + rest == [x] + rest && [] + [] + rest == rest;
    }
  }

  lemma NothingMentions(sub: string)
    ensures !Mentions([], sub)
  {
  }

  lemma FooterIsSilent(date: string, header: string)
    requires header != [] && header[0] == '#' && '#' !in date
    ensures !Mentions(["---", Footer(date), ""], header)
  {
    HashIsNotIn("---", header);
    HashIsNotIn(Footer(date), header);
    HashIsNotIn("", header);
  }

  /** A fact that fits still fits after another has been written. */
  lemma OthersStillFit(t: Text, a: Text, f: Fact, g: Fact)
    requires IsMemoryFile(t, a) && Fits(t, a, f) && Fits(t, a, g) && f.section != g.section
    requires HasHeader(a, Header(g.section)) || Silent(f, g)
    ensures
      var b := NextText(a, Header(f.section), f.content);
      && Fits(b + ["---", Footer(f.date), ""], b, g)
      && (HasHeader(b, Header(g.section)) <==> HasHeader(a, Header(g.section)))
  {
    hide Bodies, HasHeader, Rewrite, IsMemoryFile, Strip, NoHeadings, IsHeading, NoStampLine, Mentions,
      InSection, Footer, Body,
      Contains;
    var hf, hg := Header(f.section), Header(g.section);
    var b := NextText(a, hf, f.content);
    DifferentHeaders(f.section, g.section);
    NextTextHolds(t, a, f);
    HeaderHasBody(a, hg);
    HeaderHasBody(b, hg);
    if HasHeader(a, hg) {
      StillClosed(t, a, f, hg);
    } else {
      StillSilent(t, a, f, g);
    }
  }

  lemma DifferentHeaders(s: string, t: string)
    requires s != t
    ensures Header(s) != Header(t)
  {
    assert Header(s)[3..] == s && Header(t)[3..] == t;
  }

  lemma StillClosed(t: Text, a: Text, f: Fact, other: string)
    requires IsMemoryFile(t, a) && Fits(t, a, f) && other != Header(f.section) && !InSection(a, other, false)
    ensures !InSection(NextText(a, Header(f.section), f.content), other, false)
  {
    hide HasHeader, Rewrite, IsMemoryFile, Strip, NoHeadings, IsHeading, NoStampLine, Mentions, InSection, Body;
    var header := Header(f.section);
    if HasHeader(a, header) {
      RewriteKeepsOpen(a, header, f.content, false, other, false);
    } else {
      HeaderIsHeading(f.section);
      BodyIsPlain(f.content);
      OutsideConcat(a, [header] + Body(f.content), other, false);
      Unfolded(header, Body(f.content), other, [], false);
      PlainKeepsOpen(Body(f.content), [], other, false);
      NothingInside(other, false);
      assert Body(f.content) + [] == Body(f.content);
    }
  }

  lemma StillSilent(t: Text, a: Text, f: Fact, g: Fact)
    requires IsMemoryFile(t, a) && Fits(t, a, f) && Silent(f, g) && !Mentions(t, Header(g.section))
    ensures !Mentions(NextText(a, Header(f.section), f.content) + ["---", Footer(f.date), ""], Header(g.section))
  {
    hide HasHeader, Rewrite, IsMemoryFile, Strip, NoHeadings, IsHeading, NoStampLine, InSection, Body, Footer,
      Mentions, Contains;
    var header, sub := Header(f.section), Header(g.section);
    var b := NextText(a, header, f.content);
    BeforeFooter(t, a);
    assert t == a + t[|a|..];
    MentionsConcat(a, t[|a|..], sub);
    BodyIsSilent(f, sub);
    FooterIsSilent(f.date, sub);
    MentionsConcat(b, ["---", Footer(f.date), ""], sub);
    if HasHeader(a, header) {
      RewriteIsSilent(a, header, f.content, false, sub);
    } else {
      HeaderIsSilent(header, sub);
      MentionsConcat([header], Body(f.content), sub);
      MentionsConcat(a, [header] + Body(f.content), sub);
    }
  }

  lemma HeaderIsSilent(header: string, sub: string)
    requires !Contains(header, sub)
    ensures !Mentions([header], sub)
  {
    hide Contains;
  }

  // ----- the whole consolidation

  /** The facts name different sections, each fits the file, and where one's section is new no other
      mentions it. */
  ghost predicate Consolidable(t: Text, a: Text, facts: seq<Fact>) {
    && IsMemoryFile(t, a)
    && (forall i | 0 <= i < |facts| :: Fits(t, a, facts[i]))
    && forall i, j | 0 <= i < |facts| && 0 <= j < |facts| && i != j ::
         facts[i].section != facts[j].section && (HasHeader(a, Header(facts[j].section)) || Silent(facts[i], facts[j]))
  }

  /** After the first `n` facts, with `b` before the footer. */
  ghost predicate Consolidated(t: Text, a: Text, facts: seq<Fact>, n: nat, b: Text)
    requires n <= |facts| && t != []
  {
    var r := WriteAll(t, facts[..n]);
    && IsMemoryFile(r, b)
    && (forall i | 0 <= i < n :: Holds(b, facts[i]))
    && (forall i | n <= i < |facts| ::
          Fits(r, b, facts[i]) && (HasHeader(b, Header(facts[i].section)) <==> HasHeader(a, Header(facts[i].section))))
    && forall other | (forall i | 0 <= i < n :: other != Header(facts[i].section)) ::
         Bodies(b, other) == Bodies(a, other)
  }

  lemma ConsolidateOne(t: Text, a: Text, facts: seq<Fact>, n: nat, b: Text) returns (c: Text)
    requires Consolidable(t, a, facts) && n < |facts| && t != []
    ensures Consolidated(t, a, facts, n, b) ==> Consolidated(t, a, facts, n + 1, c)
  {
    hide IsMemoryFile, Fits, HasHeader, Bodies, Header, Silent, NextText, Footer, AllHold, Write;
    var f, r := facts[n], WriteAll(t, facts[..n]);
    c := NextText(b, Header(f.section), f.content);
    if Consolidated(t, a, facts, n, b) {
      assert facts[..n + 1][..n] == facts[..n];
      WriteFact(r, b, f);
      NextTextHolds(r, b, f);
      forall i | 0 <= i < n ensures Holds(c, facts[i]) {
        DifferentHeaders(facts[i].section, f.section);
      }
      forall i | n + 1 <= i < |facts| ensures
        && Fits(WriteAll(t, facts[..n + 1]), c, facts[i])
        && (HasHeader(c, Header(facts[i].section)) <==> HasHeader(a, Header(facts[i].section)))
      {
        OthersStillFit(r, b, f, facts[i]);
      }
    }
  }

  /** After a consolidation every body of every named section is exactly its content, whether the
      section existed or is new, and the bodies of all other sections are what they were. */
  lemma ConsolidationHolds(t: Text, a: Text, facts: seq<Fact>) returns (b: Text)
    requires Consolidable(t, a, facts)
    ensures t != [] && IsMemoryFile(WriteAll(t, facts), b)
    ensures forall i | 0 <= i < |facts| :: Holds(b, facts[i])
    ensures forall other | (forall i | 0 <= i < |facts| :: other != Header(facts[i].section)) ::
      Bodies(b, other) == Bodies(a, other)
  {
    hide Fits, HasHeader, Bodies, Header, Silent, Holds;
    b := a;
    var n := 0;
    assert facts[..0] == [];
    while n < |facts|
      invariant n <= |facts| && Consolidated(t, a, facts, n, b)
    {
      b := ConsolidateOne(t, a, facts, n, b);
      n := n + 1;
    }
    assert facts[..|facts|] == facts;
  }
}
