/** Rewriting a section of the Markdown memory file (`lada_memory.py`).

A text is its list of lines, split at newlines, so it is never empty; a section's content is a list
of lines too, and a section's name is one line. */
module MarkdownMemory {

  type Text = seq<string>

  const MARK := "*Last updated:"

  // ----- text searching

  function LastAtFrom(s: string, sub: string, i: int): (k: int)
    requires i <= |s|
    ensures -1 <= k <= |s|
    decreases i + 1
  {
    if i < 0 then -1 else if sub <= s[i..] then i else LastAtFrom(s, sub, i - 1)
  }

  /** `rfind`: the last position of `sub`, or -1. */
  function LastAt(s: string, sub: string): (k: int)
    ensures -1 <= k <= |s|
  {
    LastAtFrom(s, sub, |s|)
  }

  predicate Contains(s: string, sub: string) {
    LastAt(s, sub) >= 0
  }

  /** What `str.strip` removes, within a line. */
  predicate IsSpace(c: char) {
    || '\t' <= c <= '\r' || '\U{001C}' <= c <= ' ' || c == '\U{0085}' || c == '\U{00A0}' || c == '\U{1680}'
    || '\U{2000}' <= c <= '\U{200A}' || c == '\U{2028}' || c == '\U{2029}' || c == '\U{202F}'
    || c == '\U{205F}' || c == '\U{3000}'
  }

  function StripLeft(s: string): string {
    if s != [] && IsSpace(s[0]) then StripLeft(s[1..]) else s
  }

  function StripRight(s: string): string {
    if s != [] && IsSpace(s[|s| - 1]) then StripRight(s[..|s| - 1]) else s
  }

  function Strip(s: string): string {
    StripRight(StripLeft(s))
  }

  function Header(section: string): string {
    "## " + section
  }

  predicate IsHeading(line: string) {
    "## " <= Strip(line)
  }

  predicate IsHeader(line: string, header: string) {
    IsHeading(line) && Strip(line) == header
  }

  predicate HasHeader(t: Text, header: string) {
    exists i | 0 <= i < |t| :: IsHeader(t[i], header)
  }

  predicate Mentions(t: Text, sub: string) {
    exists i | 0 <= i < |t| :: Contains(t[i], sub)
  }

  // ----- the rewriting

  function Body(content: Text): Text {
    [""] + content + [""]
  }

  /** The line loop: replaces what follows each header line of the section up to the next heading. */
  function Rewrite(t: Text, header: string, content: Text, inSection: bool): Text {
    if t == [] then []
    else if IsHeading(t[0]) then
      if Strip(t[0]) == header then [t[0]] + Body(content) + Rewrite(t[1..], header, content, true)
      else [t[0]] + Rewrite(t[1..], header, content, false)
    else if inSection then Rewrite(t[1..], header, content, true)
    else [t[0]] + Rewrite(t[1..], header, content, false)
  }

  /** Whether the section is open after the lines. */
  function InSection(t: Text, header: string, inSection: bool): bool {
    if t == [] then inSection
    else InSection(t[1..], header, if IsHeading(t[0]) then Strip(t[0]) == header else inSection)
  }

  /** The lines that are not the section's: all headings, and what stands under other headings. */
  function Outside(t: Text, header: string, inSection: bool): Text {
    if t == [] then []
    else if IsHeading(t[0]) then [t[0]] + Outside(t[1..], header, Strip(t[0]) == header)
    else if inSection then Outside(t[1..], header, true)
    else [t[0]] + Outside(t[1..], header, false)
  }

  predicate EndsWithRule(line: string) {
    |line| >= 3 && line[|line| - 3..] == "---"
  }

  /** The footer marker: a rule and, on the next line, the time stamp. */
  predicate FooterAt(t: Text, i: nat) {
    i + 1 < |t| && EndsWithRule(t[i]) && MARK <= t[i + 1]
  }

  predicate HasFooter(t: Text) {
    exists i: nat | i < |t| :: FooterAt(t, i)
  }

  /** Puts a new section before every footer marker. */
  function InsertBeforeFooters(t: Text, header: string, content: Text): Text {
    if t == [] then []
    else if FooterAt(t, 0) then
      [t[0][..|t[0]| - 3] + header, ""] + content + ["", "---"] + InsertBeforeFooters(t[1..], header, content)
    else [t[0]] + InsertBeforeFooters(t[1..], header, content)
  }

  function Append(t: Text, header: string, content: Text): Text {
    t + ["", header, ""] + content + [""]
  }

  function LastMark(t: Text): (j: int)
    ensures -1 <= j < |t| && (j >= 0 ==> Contains(t[j], MARK))
  {
    if t == [] then -1
    else if Contains(t[|t| - 1], MARK) then |t| - 1
    else LastMark(t[..|t| - 1])
  }

  function Footer(date: string): string {
    MARK + " " + date + "*"
  }

  /** Cuts the text at its last time stamp and writes a new one. */
  function Stamp(t: Text, date: string): Text
    requires t != []
  {
    var j := LastMark(t);
    if j >= 0 then t[..j] + [t[j][..LastAt(t[j], MARK)] + Footer(date), ""]
    else t[..|t| - 1] + [t[|t| - 1] + Footer(date), ""]
  }

  /** The text before it is stamped. */
  function Edit(t: Text, section: string, content: Text): Text {
    var header := Header(section);
    if Mentions(t, header) then
      if HasHeader(t, header) then Rewrite(t, header, content, false) else t
    else if HasFooter(t) then InsertBeforeFooters(t, header, content)
    else Append(t, header, content)
  }

  /** `write_to_memory`. */
  function Write(t: Text, section: string, content: Text, date: string): (r: Text)
    requires t != []
    ensures r != []
  {
    EditNotEmpty(t, section, content);
    Stamp(Edit(t, section, content), date)
  }

  lemma EditNotEmpty(t: Text, section: string, content: Text)
    requires t != []
    ensures Edit(t, section, content) != []
  {
  }

  // ----- the rewriting keeps the other sections

  ghost predicate NoHeadings(content: Text) {
    forall i | 0 <= i < |content| :: !IsHeading(content[i])
  }

  lemma EmptyLineIsPlain()
    ensures !IsHeading("")
  {
  }

  lemma BodyIsPlain(content: Text)
    requires NoHeadings(content)
    ensures NoHeadings(Body(content))
  {
    hide IsHeading;
    EmptyLineIsPlain();
  }

  lemma {:induction false} OpenSectionDrops(a: Text, b: Text, header: string, content: Text)
    requires NoHeadings(a)
    ensures Rewrite(a + b, header, content, true) == Rewrite(b, header, content, true)
    ensures Outside(a + b, header, true) == Outside(b, header, true)
    ensures InSection(a + b, header, true) == InSection(b, header, true)
    decreases |a|
  {
    if a == [] {
      assert a + b == b;
    } else {
      assert (a + b)[1..] == a[1..] + b;
      OpenSectionDrops(a[1..], b, header, content);
    }
  }

  lemma Unfolded(x: string, t: Text, header: string, content: Text, inSection: bool)
    ensures
      var now := if IsHeading(x) then Strip(x) == header else inSection;
      var kept := if IsHeading(x) || !inSection then [x] else [];
      && Rewrite([x] + t, header, content, inSection) ==
           kept + (if IsHeading(x) && now then Body(content) else []) + Rewrite(t, header, content, now)
      && Outside([x] + t, header, inSection) == kept + Outside(t, header, now)
      && InSection([x] + t, header, inSection) == InSection(t, header, now)
  {
    hide Strip, Body, IsHeading;
    assert ([x] + t)[1..] == t;
  }

  lemma NothingToRewrite(header: string, content: Text, inSection: bool)
    ensures Rewrite([], header, content, inSection) == []
  {
  }

  /** All lines of other sections are kept, in order; the section is open at the end as before;
      rewriting again changes nothing. */
  lemma {:induction false} RewriteKeepsOthers(t: Text, header: string, content: Text, inSection: bool)
    requires NoHeadings(content)
    ensures
      var r := Rewrite(t, header, content, inSection);
      && Outside(r, header, inSection) == Outside(t, header, inSection)
      && InSection(r, header, inSection) == InSection(t, header, inSection)
      && Rewrite(r, header, content, inSection) == r
    decreases |t|
  {
    hide Strip, Body, IsHeading, Rewrite, Outside, InSection;
    if t == [] {
      NothingToRewrite(header, content, inSection);
    } else {
      var x, now := t[0], if IsHeading(t[0]) then Strip(t[0]) == header else inSection;
      var rest := Rewrite(t[1..], header, content, now);
      RewriteKeepsOthers(t[1..], header, content, now);
      assert t == [x] + t[1..];
      Unfolded(x, t[1..], header, content, inSection);
      if IsHeading(x) && now {
        BodyIsPlain(content);
        OpenSectionDrops(Body(content), rest, header, content);
        Unfolded(x, Body(content) + rest, header, content, inSection);
        assert [x] + Body(content) + rest == [x] + (Body(content) + rest);
      } else {
        Unfolded(x, rest, header, content, inSection);
        assert [x] + [] + rest == [x] + rest && [] + [] + rest == rest;
      }
    }
  }

  /** One step of the line loop, with the lines made so far. */
  lemma RewriteNext(t: Text, i: nat, header: string, content: Text, inSection: bool, done: Text)
    requires i < |t|
    ensures
      var whole := done + Rewrite(t[i..], header, content, inSection);
      if IsHeading(t[i]) then
        var now := Strip(t[i]) == header;
        whole == (if now then done + [t[i]] + Body(content) else done + [t[i]])
               + Rewrite(t[i + 1..], header, content, now)
      else whole == (if inSection then done else done + [t[i]]) + Rewrite(t[i + 1..], header, content, inSection)
  {
    hide Strip, Body, IsHeading;
    assert t[i..][0] == t[i] && t[i..][1..] == t[i + 1..];
    var rest := Rewrite(t[i + 1..], header, content, if IsHeading(t[i]) then Strip(t[i]) == header else inSection);
    assert done + ([t[i]] + Body(content) + rest) == done + [t[i]] + Body(content) + rest;
    assert done + ([t[i]] + rest) == done + [t[i]] + rest;
  }

  lemma {:induction false} RewriteConcat(a: Text, b: Text, header: string, content: Text, inSection: bool)
    ensures Rewrite(a + b, header, content, inSection)
         == Rewrite(a, header, content, inSection) + Rewrite(b, header, content, InSection(a, header, inSection))
    decreases |a|
  {
    if a == [] {
      assert a + b == b;
    } else {
      assert (a + b)[1..] == a[1..] + b;
      RewriteConcat(a[1..], b, header, content, if IsHeading(a[0]) then Strip(a[0]) == header else inSection);
    }
  }

  // ----- stamping

  ghost predicate NoMark(t: Text) {
    forall i | 0 <= i < |t| :: !Contains(t[i], MARK)
  }

  lemma {:induction false} LastMarkIs(t: Text, j: nat)
    requires j < |t| && Contains(t[j], MARK) && forall i | j < i < |t| :: !Contains(t[i], MARK)
    ensures LastMark(t) == j
    decreases |t|
  {
    if j < |t| - 1 { LastMarkIs(t[..|t| - 1], j); }
  }

  lemma {:induction false} NoMarkMeans(t: Text)
    ensures LastMark(t) == -1 <==> NoMark(t)
    ensures LastMark(t) >= 0 ==> Contains(t[LastMark(t)], MARK)
    ensures forall i | LastMark(t) < i < |t| :: !Contains(t[i], MARK)
    decreases |t|
  {
    if t != [] && !Contains(t[|t| - 1], MARK) {
      NoMarkMeans(t[..|t| - 1]);
    }
  }

  lemma {:induction false} LastAtFromIs(s: string, sub: string, i: int, k: nat)
    requires k <= i <= |s| && sub <= s[k..] && forall j | k < j <= i :: !(sub <= s[j..])
    ensures LastAtFrom(s, sub, i) == k
    decreases i
  {
    if i > k { LastAtFromIs(s, sub, i - 1, k); }
  }

  /** A stamp as it is written holds exactly one mark, at its beginning, and is no heading. */
  lemma FooterFacts(date: string)
    requires '*' !in date
    ensures LastAt(Footer(date), MARK) == 0 && !IsHeading(Footer(date))
  {
    var s := Footer(date);
    assert s[0..] == s && MARK <= s;
    forall j | 0 < j <= |s| ensures !(MARK <= s[j..]) {
      if |MARK| + 1 <= j < |s| - 1 { assert s[j] == date[j - |MARK| - 1]; }
      assert j < |s| - 1 ==> s[j] != '*';
    }
    LastAtFromIs(s, MARK, |s|, 0);
    assert StripLeft(s) == s;
    StripRightKeepsFirst(s);
  }

  lemma {:induction false} StripRightKeepsFirst(s: string)
    requires s != [] && !IsSpace(s[0])
    ensures StripRight(s) != [] && StripRight(s)[0] == s[0]
    decreases |s|
  {
    if IsSpace(s[|s| - 1]) { StripRightKeepsFirst(s[..|s| - 1]); }
  }

  lemma {:induction false} LastAtFromFinds(s: string, sub: string, i: int, k: nat)
    requires k <= i <= |s| && sub <= s[k..]
    ensures LastAtFrom(s, sub, i) >= 0
    decreases i
  {
    if i > k && !(sub <= s[i..]) { LastAtFromFinds(s, sub, i - 1, k); }
  }

  lemma StartsWithMark(line: string)
    requires MARK <= line
    ensures Contains(line, MARK)
  {
    assert line[0..] == line;
    LastAtFromFinds(line, MARK, |line|, 0);
  }

  lemma EmptyLineHasNoMark()
    ensures !Contains("", MARK)
  {
  }

  lemma {:induction false} LastMarkConcat(a: Text, b: Text)
    ensures LastMark(a + b) == if NoMark(b) then LastMark(a) else |a| + LastMark(b)
    decreases |b|
  {
    NoMarkMeans(b);
    if b == [] {
      assert a + b == a;
    } else {
      assert (a + b)[..|a + b| - 1] == a + b[..|b| - 1];
      if !Contains(b[|b| - 1], MARK) {
        NoMarkMeans(b[..|b| - 1]);
        LastMarkConcat(a, b[..|b| - 1]);
      }
    }
  }

  lemma BodyHasNoMark(content: Text)
    requires NoMark(content)
    ensures NoMark(Body(content))
  {
    EmptyLineHasNoMark();
  }

  lemma {:induction false} RewriteNoMark(t: Text, header: string, content: Text, inSection: bool)
    requires NoMark(Outside(t, header, inSection)) && NoMark(content)
    ensures NoMark(Rewrite(t, header, content, inSection))
    decreases |t|
  {
    if t != [] {
      var now := if IsHeading(t[0]) then Strip(t[0]) == header else inSection;
      var o := Outside(t, header, inSection);
      if IsHeading(t[0]) || !inSection {
        assert o[1..] == Outside(t[1..], header, now);
        assert !Contains(o[0], MARK);
      }
      RewriteNoMark(t[1..], header, content, now);
      BodyHasNoMark(content);
    }
  }

  lemma {:induction false} OutsideNoMark(t: Text, header: string, inSection: bool)
    requires NoMark(t)
    ensures NoMark(Outside(t, header, inSection))
    decreases |t|
  {
    if t != [] {
      OutsideNoMark(t[1..], header, if IsHeading(t[0]) then Strip(t[0]) == header else inSection);
    }
  }

  // ----- a header line mentions its header

  lemma {:induction false} StripRightIsPrefix(s: string)
    ensures StripRight(s) <= s
    decreases |s|
  {
    if s != [] && IsSpace(s[|s| - 1]) { StripRightIsPrefix(s[..|s| - 1]); }
  }

  lemma {:induction false} StripLeftIsSuffix(s: string)
    ensures |StripLeft(s)| <= |s| && StripLeft(s) == s[|s| - |StripLeft(s)|..]
    decreases |s|
  {
    hide IsSpace;
    if s != [] && IsSpace(s[0]) {
      StripLeftIsSuffix(s[1..]);
      SuffixOfTail(s, |StripLeft(s[1..])|);
    }
  }

  lemma SuffixOfTail<T>(s: seq<T>, n: nat)
    requires n < |s|
    ensures s[1..][|s| - 1 - n..] == s[|s| - n..]
  {
  }

  lemma HeaderIsMentioned(t: Text, header: string)
    requires HasHeader(t, header)
    ensures Mentions(t, header)
  {
    var i :| 0 <= i < |t| && IsHeader(t[i], header);
    var s := t[i];
    StripLeftIsSuffix(s);
    StripRightIsPrefix(StripLeft(s));
    LastAtFromFinds(s, header, |s|, |s| - |StripLeft(s)|);
    assert Contains(t[i], header);
  }

  // ----- headers that are only mentioned

  /** A header that the text only mentions, without a line that is it, is never written: whatever the
      content, only the time stamp changes. */
  lemma MentionedHeaderIsNeverWritten(t: Text, section: string, content: Text, date: string)
    requires t != [] && Mentions(t, Header(section))
    ensures !HasHeader(t, Header(section)) ==> Write(t, section, content, date) == Stamp(t, date)
  {
  }

  // ----- new sections

  lemma FooterHasMark(t: Text)
    requires HasFooter(t)
    ensures !NoMark(t)
  {
    var i: nat :| i < |t| && FooterAt(t, i);
    StartsWithMark(t[i + 1]);
  }

  lemma {:induction false} NoFooterNoInsert(t: Text, header: string, content: Text)
    requires !HasFooter(t)
    ensures InsertBeforeFooters(t, header, content) == t
    decreases |t|
  {
    if t != [] {
      assert !FooterAt(t, 0);
      assert !HasFooter(t[1..]) by {
        if HasFooter(t[1..]) {
          var i: nat :| i < |t[1..]| && FooterAt(t[1..], i);
          assert FooterAt(t, i + 1);
        }
      }
      NoFooterNoInsert(t[1..], header, content);
    }
  }

  lemma TailFooter(t: Text)
    requires t != [] && HasFooter(t) && !FooterAt(t, 0)
    ensures HasFooter(t[1..])
  {
    var i: nat :| i < |t| && FooterAt(t, i);
    assert FooterAt(t[1..], i - 1);
  }

  lemma FooterMarksTail(t: Text)
    requires HasFooter(t)
    ensures !NoMark(t[1..])
  {
    var i: nat :| i < |t| && FooterAt(t, i);
    StartsWithMark(t[i + 1]);
    assert Contains(t[1..][i], MARK);
  }

  /** Everything that is inserted stands before the last mark. */
  lemma {:induction false} InsertMovesMark(t: Text, header: string, content: Text)
    requires !NoMark(t)
    ensures
      var r := InsertBeforeFooters(t, header, content);
      && LastMark(r) == LastMark(t) + |r| - |t| && LastMark(t) >= 0
      && |r| >= |t| && (HasFooter(t) ==> |r| > |t|)
    decreases |t|
  {
    NoMarkMeans(t);
    assert t == [t[0]] + t[1..];
    LastMarkConcat([t[0]], t[1..]);
    if HasFooter(t) { FooterMarksTail(t); }
    if NoMark(t[1..]) {
      NoFooterNoInsert(t, header, content);
    } else {
      var rest := InsertBeforeFooters(t[1..], header, content);
      InsertMovesMark(t[1..], header, content);
      NoMarkMeans(rest);
      if FooterAt(t, 0) {
        LastMarkConcat([t[0][..|t[0]| - 3] + header, ""] + content + ["", "---"], rest);
      } else {
        LastMarkConcat([t[0]], rest);
        if HasFooter(t) { TailFooter(t); }
      }
    }
  }

  lemma NewLinesMarked(header: string, content: Text)
    ensures
      var more := ["", header, ""] + content + [""];
      && (NoMark(more) <==> NoMark(content) && !Contains(header, MARK))
      && LastMark(more) != 0
  {
    hide Contains, LastMark;
    var more := ["", header, ""] + content + [""];
    EmptyLineHasNoMark();
    NoMarkMeans(more);
    assert more[0] == "" && more[1] == header;
    assert forall i | 0 <= i < |content| :: more[i + 3] == content[i];
    assert forall i | 3 <= i < |more| - 1 :: more[i] == content[i - 3];
  }

  /** A new section is dropped as it is written exactly when the text has a time stamp but no footer
      (no rule on the line before a stamp), and what would be added carries no stamp. */
  lemma NewSectionDroppedExactlyWithoutFooter(t: Text, section: string, content: Text, date: string)
    requires t != [] && !Mentions(t, Header(section))
    ensures Write(t, section, content, date) == Stamp(t, date) <==>
      !NoMark(t) && !HasFooter(t) && NoMark(content) && !Contains(Header(section), MARK)
  {
    hide InsertBeforeFooters, Contains, HasFooter, Rewrite, LastMark, NoMark;
    var header := Header(section);
    assert !HasHeader(t, header) by {
      if HasHeader(t, header) { HeaderIsMentioned(t, header); }
    }
    NoMarkMeans(t);
    if HasFooter(t) {
      FooterHasMark(t);
      InsertMovesMark(t, header, content);
    } else {
      var more := ["", header, ""] + content + [""];
      NewLinesMarked(header, content);
      NoMarkMeans(more);
      assert Append(t, header, content) == t + more;
      LastMarkConcat(t, more);
      if LastMark(t) >= 0 {
        assert (t + more)[..LastMark(t)] == t[..LastMark(t)];
      }
    }
  }

  // ----- editing the last section

  ghost predicate EndsWith(t: Text, b: Text) {
    |t| >= |b| && t[|t| - |b|..] == b
  }

  lemma EndOfConcat(a: Text, b: Text)
    ensures EndsWith(a + b, b)
    ensures forall c | EndsWith(b, c) :: EndsWith(a + b, c)
  {
    forall c | EndsWith(b, c) ensures EndsWith(a + b, c) {
      assert (a + b)[|a + b| - |c|..] == b[|b| - |c|..];
    }
  }

  lemma {:induction false} OpenAtEnd(t: Text, header: string, content: Text, inSection: bool)
    requires InSection(t, header, inSection)
    ensures
      var r := Rewrite(t, header, content, inSection);
      (inSection && r == []) || EndsWith(r, Body(content))
    decreases |t|
  {
    hide Strip, Body, EndsWith;
    if t != [] {
      var now := if IsHeading(t[0]) then Strip(t[0]) == header else inSection;
      OpenAtEnd(t[1..], header, content, now);
      var rest, b := Rewrite(t[1..], header, content, now), Body(content);
      EndOfConcat([t[0]] + b, rest);
      EndOfConcat([t[0]], rest);
      if rest == [] {
        assert [t[0]] + b + rest == [t[0]] + b;
        EndOfConcat([t[0]], b);
      }
    }
  }

  /** Editing the section at the end of the file drops the footer's rule with the rest of the section;
      the next new section is then lost. */
  lemma LastSectionEditLosesNextSection(t: Text, section: string, content: Text, date: string,
                                        next: string, nextContent: Text, date': string)
    requires t != [] && HasHeader(t, Header(section)) && InSection(t, Header(section), false)
    requires NoMark(Outside(t, Header(section), false)) && NoMark(content)
    requires content != [] && !EndsWithRule(content[|content| - 1]) && '*' !in date
    requires NoMark(nextContent) && !Contains(Header(next), MARK)
    ensures
      var u := Write(t, section, content, date);
      && !HasFooter(u)
      && (!Mentions(u, Header(next)) ==> Write(u, next, nextContent, date') == Stamp(u, date'))
  {
    var header, u := Header(section), Write(t, section, content, date);
    var r := Rewrite(t, header, content, false);
    hide Rewrite, Outside, InSection, Contains, HasFooter, Mentions, Footer, EndsWithRule, InsertBeforeFooters;
    HeaderIsMentioned(t, header);
    RewriteNoMark(t, header, content, false);
    NoMarkMeans(r);
    OpenAtEnd(t, header, content, false);
    BodyEnd(r, content);
    assert "" + Footer(date) == Footer(date);
    assert u == r[..|r| - 1] + [Footer(date), ""];
    StampedWithoutRule(r[..|r| - 1], date);
    if !Mentions(u, Header(next)) { NewSectionDroppedExactlyWithoutFooter(u, next, nextContent, date'); }
  }

  lemma BodyEnd(r: Text, content: Text)
    requires EndsWith(r, Body(content)) && content != []
    ensures |r| >= 2 && r[|r| - 1] == "" && r[|r| - 2] == content[|content| - 1]
  {
    var b := Body(content);
    assert r[|r| - 1] == r[|r| - |b|..][|b| - 1] && r[|r| - 2] == r[|r| - |b|..][|b| - 2];
  }

  /** A stamp that no rule precedes makes no footer. */
  lemma StampedWithoutRule(a: Text, date: string)
    requires a != [] && NoMark(a) && !EndsWithRule(a[|a| - 1]) && '*' !in date
    ensures !HasFooter(a + [Footer(date), ""]) && !NoMark(a + [Footer(date), ""])
  {
    hide Contains, Footer, EndsWithRule;
    var u := a + [Footer(date), ""];
    StampHasMark(date);
    EmptyLineHasNoMark();
    forall i: nat | i < |u| && FooterAt(u, i) ensures i == |a| - 1 {
      StartsWithMark(u[i + 1]);
    }
    assert u[|a|] == Footer(date);
  }

  lemma StampHasMark(date: string)
    requires '*' !in date
    ensures Contains(Footer(date), MARK)
  {
    FooterFacts(date);
  }

  /** The memory file. */
  class MarkdownMemoryStack {
    var lines: Text

    constructor (lines: Text)
      ensures this.lines == lines
    {
      this.lines := lines;
    }

    /** Writes or updates a section. */
    method WriteToMemory(section: string, content: Text, date: string)
      requires lines != []
      modifies this
      ensures lines == Write(old(lines), section, content, date)
    {
      var header, current := Header(section), lines;
      EditNotEmpty(lines, section, content);
      if Mentions(current, header) {
        var newLines, sectionWritten := ReplaceSection(current, header, content);
        if sectionWritten { current := newLines; }
      } else if HasFooter(current) {
        current := InsertBeforeFooters(current, header, content);
      } else {
        current := Append(current, header, content);
      }
      lines := Stamp(current, date);
    }

    /** The line loop over an existing section. */
    method ReplaceSection(current: Text, header: string, content: Text)
      returns (newLines: Text, sectionWritten: bool)
      ensures newLines == Rewrite(current, header, content, false)
      ensures sectionWritten <==> HasHeader(current, header)
    {
      hide Strip, Body, IsHeading, Rewrite;
      assert current[0..] == current && current[|current|..] == [];
      newLines, sectionWritten := [], false;
      var inSection := false;
      for i := 0 to |current|
        invariant newLines + Rewrite(current[i..], header, content, inSection)
               == Rewrite(current, header, content, false)
        invariant sectionWritten <==> exists k | 0 <= k < i :: IsHeader(current[k], header)
      {
        var line := current[i];
        RewriteNext(current, i, header, content, inSection, newLines);
        if IsHeading(line) {
          inSection := Strip(line) == header;
          if inSection {
            newLines := newLines + [line] + Body(content);
            sectionWritten := true;
          } else {
            newLines := newLines + [line];
          }
        } else if !inSection {
          newLines := newLines + [line];
        }
      }
      NothingToRewrite(header, content, inSection);
      assert newLines + [] == newLines;
    }

    /** Writes the given facts, one section after the other. */
    method ConsolidateToMemory(facts: seq<Fact>)
      requires lines != []
      modifies this
      ensures lines != [] && lines == WriteAll(old(lines), facts)
    {
      for i := 0 to |facts|
        invariant lines != [] && lines == WriteAll(old(lines), facts[..i])
      {
        WriteToMemory(facts[i].section, facts[i].content, facts[i].date);
        assert facts[..i + 1][..i] == facts[..i];
      }
      assert facts[..|facts|] == facts;
    }
  }

  /** A fact to be written, and the clock reading at which it is. */
  datatype Fact = Fact(section: string, content: Text, date: string)

  function WriteAll(t: Text, facts: seq<Fact>): (r: Text)
    requires t != []
    ensures r != []
  {
    if facts == [] then t
    else
      var last := facts[|facts| - 1];
      Write(WriteAll(t, facts[..|facts| - 1]), last.section, last.content, last.date)
  }
}
