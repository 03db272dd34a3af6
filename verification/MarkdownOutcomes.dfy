/** What one write does to the memory file, line by line. */
module MarkdownOutcomes {
  import opened MarkdownMemory

  // ----- searching and stripping

  predicate Occurs(s: string, sub: string, k: int) {
    0 <= k <= |s| && sub <= s[k..]
  }

  ghost predicate LastOccurs(s: string, sub: string, k: int) {
    Occurs(s, sub, k) && forall j | Occurs(s, sub, j) :: j <= k
  }

  lemma {:induction false} LastAtFromFacts(s: string, sub: string, i: int)
    requires -1 <= i <= |s|
    ensures
      var k := LastAtFrom(s, sub, i);
      && k <= i && (k >= 0 ==> Occurs(s, sub, k))
      && forall j | k < j <= i :: !Occurs(s, sub, j)
    decreases i + 1
  {
    if i >= 0 && !(sub <= s[i..]) { LastAtFromFacts(s, sub, i - 1); }
  }

  /** The search finds the last occurrence, if there is one. */
  lemma LastAtOutcome(s: string, sub: string)
    ensures Contains(s, sub) <==> exists k :: Occurs(s, sub, k)
    ensures Contains(s, sub) ==> LastOccurs(s, sub, LastAt(s, sub))
  {
    LastAtFromFacts(s, sub, |s|);
    hide LastAtFrom;
    var k := LastAt(s, sub);
    if exists j :: Occurs(s, sub, j) {
      var j :| Occurs(s, sub, j);
      assert j <= k;
    }
  }

  ghost predicate Blank(s: string) {
    forall i | 0 <= i < |s| :: IsSpace(s[i])
  }

  /** `core` is what is left of `s` without the white space around it. */
  ghost predicate Stripped(s: string, core: string) {
    && (exists l, r :: Blank(l) && Blank(r) && s == l + core + r)
    && (core != [] ==> !IsSpace(core[0]) && !IsSpace(core[|core| - 1]))
  }

  lemma {:induction false} StripLeftFacts(s: string) returns (l: string)
    ensures Blank(l) && s == l + StripLeft(s)
    ensures StripLeft(s) != [] ==> !IsSpace(StripLeft(s)[0])
  {
    hide IsSpace;
    l := [];
    if s != [] && IsSpace(s[0]) {
      var rest := StripLeftFacts(s[1..]);
      l := [s[0]] + rest;
      assert s == [s[0]] + (rest + StripLeft(s[1..]));
    }
  }

  lemma {:induction false} StripRightFacts(s: string) returns (r: string)
    ensures Blank(r) && s == StripRight(s) + r
    ensures StripRight(s) != [] ==> !IsSpace(StripRight(s)[|StripRight(s)| - 1])
  {
    hide IsSpace;
    r := [];
    if s != [] && IsSpace(s[|s| - 1]) {
      var rest := StripRightFacts(s[..|s| - 1]);
      r := rest + [s[|s| - 1]];
      assert s == (StripRight(s[..|s| - 1]) + rest) + [s[|s| - 1]];
    }
  }

  lemma StripOutcome(s: string)
    ensures Stripped(s, Strip(s))
  {
    hide IsSpace, StripLeft, StripRight;
    var l := StripLeftFacts(s);
    var m := StripLeft(s);
    var r := StripRightFacts(m);
    assert s == l + Strip(s) + r;
    if Strip(s) != [] { assert m[0] == Strip(s)[0]; }
  }

  // ----- the edit

  /** Line `i` as it is when a section is added before every footer marker: a rule at the end of a line,
      and a stamp at the beginning of the next. */
  function Around(t: Text, header: string, content: Text, i: nat): Text
    requires i < |t|
  {
    var line := t[i];
    if i + 1 < |t| && |line| >= 3 && line[|line| - 3..] == "---" && "*Last updated:" <= t[i + 1]
    then [line[..|line| - 3] + header, ""] + content + ["", "---"]
    else [line]
  }

  function AroundAll(t: Text, header: string, content: Text, n: nat): Text
    requires n <= |t|
  {
    if n == 0 then [] else AroundAll(t, header, content, n - 1) + Around(t, header, content, n - 1)
  }

  lemma {:induction false} AroundTail(t: Text, header: string, content: Text, n: nat)
    requires t != [] && n <= |t| - 1
    ensures AroundAll(t, header, content, n + 1)
      == Around(t, header, content, 0) + AroundAll(t[1..], header, content, n)
    decreases n
  {
    hide Around, AroundAll;
    AroundNext(t, header, content, n);
    var first := Around(t, header, content, 0);
    if n > 0 {
      AroundTail(t, header, content, n - 1);
      AroundNext(t[1..], header, content, n - 1);
      AroundLater(t, header, content, n);
      var mid, last := AroundAll(t[1..], header, content, n - 1), Around(t, header, content, n);
      assert first + mid + last == first + (mid + last);
    } else {
      assert first + [] == [] + first;
    }
  }

  lemma AroundNext(t: Text, header: string, content: Text, n: nat)
    requires n < |t|
    ensures AroundAll(t, header, content, 0) == [] == AroundAll(t[1..], header, content, 0)
    ensures AroundAll(t, header, content, n + 1) == AroundAll(t, header, content, n) + Around(t, header, content, n)
  {
    hide Around;
  }

  lemma AroundLater(t: Text, header: string, content: Text, n: nat)
    requires 0 < n < |t|
    ensures Around(t, header, content, n) == Around(t[1..], header, content, n - 1)
  {
  }

  lemma NoneAround(t: Text, header: string, content: Text)
    ensures AroundAll(t, header, content, 0) == []
  {
  }

  lemma InsertNext(t: Text, header: string, content: Text)
    ensures InsertBeforeFooters(t, header, content) ==
      if t == [] then [] else Around(t, header, content, 0) + InsertBeforeFooters(t[1..], header, content)
  {
  }

  /** A section is added before every footer marker, and nowhere else. */
  lemma {:induction false} InsertOutcome(t: Text, header: string, content: Text)
    ensures InsertBeforeFooters(t, header, content) == AroundAll(t, header, content, |t|)
    decreases |t|
  {
    hide AroundAll, InsertBeforeFooters, Around;
    InsertNext(t, header, content);
    if t != [] {
      var rest := t[1..];
      InsertOutcome(rest, header, content);
      assert InsertBeforeFooters(rest, header, content) == AroundAll(rest, header, content, |t| - 1);
      AroundTail(t, header, content, |t| - 1);
    } else {
      NoneAround(t, header, content);
    }
  }

  /** White space at the beginning of a line reaches at most to what is left when it is stripped. */
  lemma BlankStart(s: string, l: string, core: string, r: string, blank: string)
    requires s == l + core + r && core != [] && !IsSpace(core[0]) && Blank(blank) && blank <= s
    ensures |blank| <= |l|
  {
    hide IsSpace;
    assert forall i | 0 <= i < |blank| :: IsSpace(s[i]);
    assert s[|l|] == core[0];
  }

  lemma BlankEnd(s: string, l: string, core: string, r: string, blank: string)
    requires s == l + core + r && core != [] && !IsSpace(core[|core| - 1])
    requires Blank(blank) && |blank| <= |s| && s[|s| - |blank|..] == blank
    ensures |blank| <= |r|
  {
    hide IsSpace;
    assert forall i | |s| - |blank| <= i < |s| :: s[i] == blank[i - (|s| - |blank|)];
    assert s[|l| + |core| - 1] == core[|core| - 1];
  }

  /** What is left of a line is determined by it. */
  lemma StrippedIsUnique(s: string, a: string, b: string)
    requires Stripped(s, a) && Stripped(s, b) && a != [] && b != []
    ensures a == b
  {
    hide IsSpace, Blank;
    var l, r :| Blank(l) && Blank(r) && s == l + a + r;
    var l', r' :| Blank(l') && Blank(r') && s == l' + b + r';
    BlankStart(s, l, a, r, l');
    BlankStart(s, l', b, r', l);
    BlankEnd(s, l, a, r, r');
    BlankEnd(s, l', b, r', r);
    assert a == s[|l|..|s| - |r|] && b == s[|l'|..|s| - |r'|];
  }

  ghost predicate IsLineOf(t: Text, i: int, header: string) {
    0 <= i < |t| && Stripped(t[i], header)
  }

  lemma NotBlank(s: string, core: string)
    requires Stripped(s, core) && core != []
    ensures !Blank(s)
  {
    hide IsSpace;
    var l, r :| Blank(l) && Blank(r) && s == l + core + r;
    assert s[|l|] == core[0];
  }

  lemma StripsToSomething(s: string, a: string, b: string)
    requires Stripped(s, a) && Stripped(s, b) && b != []
    ensures a != []
  {
    NotBlank(s, b);
    hide IsSpace;
    var l, r :| Blank(l) && Blank(r) && s == l + a + r;
    assert Blank(l + r);
    assert l + [] + r == l + r;
  }

  lemma HeaderLineMeans(line: string, header: string)
    requires "## " <= header
    ensures IsHeader(line, header) <==> Stripped(line, header)
  {
    StripOutcome(line);
    hide Strip;
    if Stripped(line, header) {
      NotBlank(line, header);
      StripsToSomething(line, Strip(line), header);
      StrippedIsUnique(line, Strip(line), header);
    }
  }

  /** Whether the section is found: some line is its header, but for white space around it. */
  lemma HasHeaderMeans(t: Text, header: string)
    requires "## " <= header
    ensures HasHeader(t, header) <==> exists i :: IsLineOf(t, i, header)
  {
    hide Stripped, IsHeader;
    forall i | 0 <= i < |t| ensures IsHeader(t[i], header) <==> IsLineOf(t, i, header) {
      HeaderLineMeans(t[i], header);
    }
  }

  // ----- the stamp

  ghost predicate HasMark(t: Text, j: int) {
    0 <= j < |t| && exists k :: Occurs(t[j], "*Last updated:", k)
  }

  /** The text is cut at its last mark and stamped there, or at its end if it has none. */
  ghost predicate Stamped(t: Text, date: string, u: Text)
    requires t != []
  {
    if exists j :: HasMark(t, j) then
      exists j, k :: HasMark(t, j) && (forall i | HasMark(t, i) :: i <= j)
        && LastOccurs(t[j], "*Last updated:", k)
        && u == t[..j] + [t[j][..k] + "*Last updated: " + date + "*", ""]
    else u == t[..|t| - 1] + [t[|t| - 1] + "*Last updated: " + date + "*", ""]
  }

  lemma FooterText(date: string)
    ensures Footer(date) == "*Last updated: " + date + "*"
  {
    assert MARK + " " == "*Last updated: ";
  }

  lemma StampOutcome(t: Text, date: string)
    requires t != []
    ensures Stamped(t, date, Stamp(t, date))
  {
    hide LastAtFrom, LastMark, Occurs, Footer, Contains, LastOccurs;
    FooterText(date);
    NoMarkMeans(t);
    var j := LastMark(t);
    forall i | 0 <= i < |t| ensures HasMark(t, i) <==> Contains(t[i], MARK) { LastAtOutcome(t[i], MARK); }
    if j >= 0 {
      LastAtOutcome(t[j], MARK);
      var k := LastAt(t[j], MARK);
      assert HasMark(t, j) && LastOccurs(t[j], MARK, k);
      assert t[j][..k] + Footer(date) == t[j][..k] + "*Last updated: " + date + "*";
    } else {
      assert t[|t| - 1] + Footer(date) == t[|t| - 1] + "*Last updated: " + date + "*";
    }
  }

  // ----- rewriting a section

  /** Line `i` stands under a header line of the section: no heading comes between. */
  ghost predicate Under(t: Text, i: int, header: string) {
    exists h :: 0 <= h <= i < |t| && IsHeader(t[h], header) && forall j | h < j <= i :: !IsHeading(t[j])
  }

  /** What becomes of line `i`: a header line is followed by the new body, what stands under one goes, every
      other line stays. */
  ghost function Rewritten(t: Text, header: string, content: Text, i: nat): Text
    requires i < |t|
  {
    if IsHeader(t[i], header) then [t[i], ""] + content + [""]
    else if Under(t, i, header) then []
    else [t[i]]
  }

  ghost function RewrittenAll(t: Text, header: string, content: Text, n: nat): Text
    requires n <= |t|
  {
    if n == 0 then [] else RewrittenAll(t, header, content, n - 1) + Rewritten(t, header, content, n - 1)
  }

  lemma UnderNothing(t: Text, header: string)
    ensures !Under(t, -1, header)
  {
  }

  lemma UnderNext(t: Text, i: nat, header: string)
    requires i < |t|
    ensures Under(t, i, header) <==> if IsHeading(t[i]) then IsHeader(t[i], header) else Under(t, i - 1, header)
  {
    hide IsHeading, Strip;
    if !IsHeading(t[i]) && Under(t, i - 1, header) {
      var h :| 0 <= h <= i - 1 && IsHeader(t[h], header) && forall j | h < j <= i - 1 :: !IsHeading(t[j]);
      assert forall j | h < j <= i :: !IsHeading(t[j]);
    }
  }

  lemma {:induction false} RewriteSoFar(t: Text, header: string, content: Text, n: nat)
    requires n <= |t|
    ensures Rewrite(t, header, content, false)
      == RewrittenAll(t, header, content, n) + Rewrite(t[n..], header, content, Under(t, n - 1, header))
    decreases n
  {
    hide Rewrite, IsHeading, Strip, Under;
    if n == 0 {
      UnderNothing(t, header);
      assert t[0..] == t;
      assert [] + Rewrite(t, header, content, false) == Rewrite(t, header, content, false);
    } else {
      var i, done := n - 1, RewrittenAll(t, header, content, n - 1);
      RewriteSoFar(t, header, content, i);
      RewriteNext(t, i, header, content, Under(t, i - 1, header), done);
      UnderNext(t, i, header);
      assert [t[i]] + Body(content) == [t[i], ""] + content + [""];
      assert done + [t[i]] + Body(content) == done + ([t[i], ""] + content + [""]);
      assert done + [] == done;
    }
  }

  lemma RewriteOutcome(t: Text, header: string, content: Text)
    ensures Rewrite(t, header, content, false) == RewrittenAll(t, header, content, |t|)
  {
    hide Rewrite, RewrittenAll, Under;
    RewriteSoFar(t, header, content, |t|);
    assert t[|t|..] == [];
    NothingToRewrite(header, content, Under(t, |t| - 1, header));
    var all := RewrittenAll(t, header, content, |t|);
    assert all + [] == all;
  }

  // ----- the whole write

  ghost predicate MentionedAt(t: Text, i: int, sub: string) {
    0 <= i < |t| && exists k :: Occurs(t[i], sub, k)
  }

  /** A rule ends line `i` and a stamp begins the next. */
  ghost predicate MarkerAt(t: Text, i: int) {
    0 <= i < |t| - 1 && |t[i]| >= 3 && t[i][|t[i]| - 3..] == "---" && "*Last updated:" <= t[i + 1]
  }

  /** Under a header line the section is rewritten; a header that is only mentioned leaves the text as it is; a
      new section is added before every footer marker, or at the end where there is none. */
  ghost predicate Edited(t: Text, section: string, content: Text, e: Text) {
    var header := "## " + section;
    if exists i :: IsLineOf(t, i, header) then e == RewrittenAll(t, header, content, |t|)
    else if exists i :: MentionedAt(t, i, header) then e == t
    else if exists i :: MarkerAt(t, i) then e == AroundAll(t, header, content, |t|)
    else e == t + ["", header, ""] + content + [""]
  }

  ghost predicate Written(t: Text, section: string, content: Text, date: string, u: Text) {
    exists e :: e != [] && Edited(t, section, content, e) && Stamped(e, date, u)
  }

  lemma MentionsMeans(t: Text, sub: string)
    ensures Mentions(t, sub) <==> exists i :: MentionedAt(t, i, sub)
  {
    hide Contains, Occurs;
    forall i | 0 <= i < |t| ensures MentionedAt(t, i, sub) <==> Contains(t[i], sub) { LastAtOutcome(t[i], sub); }
  }

  lemma HasFooterMeans(t: Text)
    ensures HasFooter(t) <==> exists i :: MarkerAt(t, i)
  {
    forall i: nat | i < |t| ensures FooterAt(t, i) <==> MarkerAt(t, i) {}
  }

  lemma EditOutcome(t: Text, section: string, content: Text)
    ensures Edited(t, section, content, Edit(t, section, content))
  {
    hide IsLineOf, MentionedAt, MarkerAt, HasHeader, HasFooter, Mentions, Rewrite, InsertBeforeFooters, AroundAll,
      RewrittenAll;
    var header := Header(section);
    assert "## " <= header;
    HasHeaderMeans(t, header);
    MentionsMeans(t, header);
    HasFooterMeans(t);
    InsertOutcome(t, header, content);
    RewriteOutcome(t, header, content);
    if HasHeader(t, header) { HeaderIsMentioned(t, header); }
  }

  /** What one write does: the edit, then the stamp. */
  lemma WriteOutcome(t: Text, section: string, content: Text, date: string)
    requires t != []
    ensures Written(t, section, content, date, Write(t, section, content, date))
  {
    hide Edited, Stamped, Edit, Stamp;
    EditNotEmpty(t, section, content);
    EditOutcome(t, section, content);
    StampOutcome(Edit(t, section, content), date);
  }

  /** Facts are written in order, each into what the one before left. */
  lemma {:induction false} FactsInOrder(t: Text, facts: seq<Fact>) returns (texts: seq<Text>)
    requires t != []
    ensures |texts| == |facts| + 1 && texts[0] == t && texts[|facts|] == WriteAll(t, facts)
    ensures forall i | 0 <= i < |facts| ::
      Written(texts[i], facts[i].section, facts[i].content, facts[i].date, texts[i + 1])
    decreases |facts|
  {
    hide Written;
    texts := [t];
    if facts != [] {
      var init, last := facts[..|facts| - 1], facts[|facts| - 1];
      var before := FactsInOrder(t, init);
      texts := before + [WriteAll(t, facts)];
      WriteOutcome(WriteAll(t, init), last.section, last.content, last.date);
      assert forall i | 0 <= i < |init| :: facts[i] == init[i];
    }
  }
}
