/** Concrete memory files on which writing a section loses something. */
module MarkdownExamples {
  import opened MarkdownMemory
  import opened MarkdownSections
  import opened SectionContents
  import opened WritingTwice
  import opened SectionLosses
  import opened Consolidation

  lemma NoStar(line: string)
    requires '*' !in line
    ensures !Contains(line, MARK)
  {
    hide Contains;
    if Contains(line, MARK) { FirstIsThere(line, MARK); }
  }

  lemma Letter(line: string)
    requires line != [] && !IsSpace(line[0]) && !IsSpace(line[|line| - 1])
    ensures Strip(line) == line && (IsHeading(line) <==> "## " <= line)
  {
  }

  lemma OneStep(x: string, rest: Text, header: string)
    requires IsHeader(x, header) && !HasHeader(rest, header)
    ensures HasHeader([x] + rest, header) && Tail([x] + rest, header) == FromHeading(rest)
  {
    var t := [x] + rest;
    assert t[0] == x && t[1..] == rest;
  }

  // ----- other sections lost

  /** A section stands behind the last time stamp: it is cut off with everything there. */
  const STAMP_IN_THE_MIDDLE: Text :=
    ["## S", "x", "## B", "y", "---", "*Last updated: d*", "## C", "z", ""]

  /** There is no time stamp, and the last line belongs to another section: it becomes part of the stamp. */
  const NO_STAMP: Text := ["## S", "x", "## B", "y"]

  lemma SectionBehindStampIsLost(date: string)
    ensures
      var t := STAMP_IN_THE_MIDDLE;
      && HasHeader(t, Header("S")) && Tail(t, Header("S")) != []
      && Solid(Outside(Write(t, "S", ["c"], date), Header("S"), false)) != Solid(Outside(t, Header("S"), false))
  {
    hide Outside, Solid, Contains, IsHeading, Strip, LastMark, HasHeader, Tail, NoMark;
    var t := STAMP_IN_THE_MIDDLE;
    assert t == ["## S"] + (["x"] + BEHIND_S);
    MarkInTheMiddle();
    TailOf(BEHIND_S);
    OthersKeptExactly(t, "S", ["c"], date);
  }

  const BEHIND_S: Text := ["## B", "y", "---", "*Last updated: d*", "## C", "z", ""]

  lemma TailOf(tail: Text)
    requires tail != [] && tail[0] == "## B" && forall x | x in tail :: !IsHeader(x, "## S")
    ensures HasHeader(["## S"] + (["x"] + tail), Header("S"))
    ensures Tail(["## S"] + (["x"] + tail), Header("S")) == tail && NoHeadings(["c"])
  {
    hide IsHeading, Strip;
    Lines();
    FromPlain("x", tail);
    var rest := ["x"] + tail;
    assert forall i | 0 <= i < |rest| :: rest[i] == "x" || rest[i] in tail;
    OneStep("## S", rest, "## S");
  }

  lemma MarkInTheMiddle()
    ensures forall x | x in BEHIND_S :: !IsHeader(x, "## S")
    ensures LastMark(BEHIND_S) == 3 && !NoMark(BEHIND_S) && !IsBlank(BEHIND_S[4])
  {
    hide Contains, IsHeading, Strip, LastMark;
    Lines();
    assert Contains(BEHIND_S[3], MARK);
    LastMarkIs(BEHIND_S, 3);
  }

  lemma LastLineIsGlued(date: string)
    ensures
      var t := NO_STAMP;
      && HasHeader(t, Header("S")) && Tail(t, Header("S")) != []
      && Solid(Outside(Write(t, "S", ["c"], date), Header("S"), false)) != Solid(Outside(t, Header("S"), false))
  {
    hide Outside, Solid, Contains, IsHeading, Strip, LastMark, HasHeader, Tail;
    var t, tail := NO_STAMP, ["## B", "y"];
    Lines();
    assert t == ["## S"] + (["x"] + tail);
    TailOf(tail);
    OthersKeptExactly(t, "S", ["c"], date);
  }

  lemma FromPlain(x: string, tail: Text)
    requires !IsHeading(x) && Closing(tail)
    ensures FromHeading([x] + tail) == tail
  {
    assert ([x] + tail)[1..] == tail;
  }

  lemma Lines()
    ensures Header("S") == "## S" && IsHeader("## S", "## S")
    ensures NoHeadings(["c"]) && IsHeading("## B") && Strip("## B") == "## B" && Strip("## C") == "## C"
    ensures forall x | x in ["x", "y", "z", "---", "", "c"] :: !IsHeading(x)
    ensures !IsHeading("*Last updated: d*") && Contains("*Last updated: d*", MARK)
    ensures !Contains("## B", MARK) && !Contains("## C", MARK) && !Contains("y", MARK) && !Contains("z", MARK)
    ensures !Contains("", MARK) && !IsBlank("y")
  {
    Letter("## S");
    Letter("## B");
    Letter("## C");
    Letter("x");
    Letter("y");
    Letter("z");
    Letter("c");
    Letter("---");
    EmptyLineIsPlain();
    StampLineIsPlain("*Last updated: d*");
    StartsWithMark("*Last updated: d*");
    NoStar("## B");
    NoStar("## C");
    NoStar("y");
    NoStar("z");
    NoStar("");
  }

  // ----- the section itself lost

  /** The last time stamp stands before the section. */
  const STAMP_FIRST: Text := ["---", "*Last updated: d*"] + (["## S"] + (["x"] + BEHIND))

  const BEHIND: Text := ["## B", "y", ""]

  lemma {:induction false} PrefixTail(a: Text, t: Text, header: string)
    requires HasHeader(t, header)
    ensures HasHeader(a + t, header) && Tail(a + t, header) == Tail(t, header)
    decreases |a|
  {
    hide IsHeader;
    if a == [] {
      assert a + t == t;
    } else {
      assert (a + t)[1..] == a[1..] + t;
      PrefixTail(a[1..], t, header);
      HeaderInTail(a + t, header);
    }
  }

  lemma StampFirstParts()
    ensures HasHeader(STAMP_FIRST, "## S") && Tail(STAMP_FIRST, "## S") == BEHIND && NoMark(BEHIND) && NoMark(["c"])
    ensures Header("S") == "## S" && !Contains("## S", MARK) && NoHeadings(["c"])
  {
    hide Contains, IsHeading, Strip, Tail, HasHeader;
    Lines();
    NoStar("## S");
    NoStar("c");
    assert forall x | x in BEHIND :: !IsHeader(x, "## S");
    TailOf(BEHIND);
    PrefixTail(["---", "*Last updated: d*"], ["## S"] + (["x"] + BEHIND), "## S");
  }

  lemma StampFirstOutside()
    ensures Outside(STAMP_FIRST, "## S", false) == ["---", "*Last updated: d*"] + (["## S"] + BEHIND)
  {
    hide Contains, IsHeading, Strip, Outside, Tail, HasHeader;
    Lines();
    HeadHasNoHeader();
    OutsideAround(["---", "*Last updated: d*"], "## S", "x", BEHIND);
  }

  lemma HeadHasNoHeader()
    ensures !HasHeader(["---", "*Last updated: d*"], "## S") && !HasHeader(BEHIND, "## S")
  {
    hide Contains, IsHeading, Strip;
    Lines();
  }

  lemma OutsideAround(a: Text, header: string, x: string, tail: Text)
    requires !HasHeader(a, header) && !HasHeader(tail, header) && Closing(tail)
    requires IsHeading(header) && Strip(header) == header && !IsHeading(x)
    ensures Outside(a + ([header] + ([x] + tail)), header, false) == a + ([header] + tail)
  {
    hide IsHeading, Strip, Outside, HasHeader, FromHeading, Closing;
    NoHeaderNoChange(a, header, [], false);
    NoHeaderNoChange(tail, header, [], true);
    ClosingIsFromHeading(tail);
    OutsideConcat(a, [header] + ([x] + tail), header, false);
    Unfolded(header, [x] + tail, header, [], false);
    OpenSectionDrops([x], tail, header, []);
  }

  /** The stamp is the last mark outside the section, and a rule precedes it. */
  lemma StampFirstUpToStamp()
    ensures !NoMark(Outside(STAMP_FIRST, "## S", false))
    ensures UpToStamp(STAMP_FIRST, "## S") == ["---", MARK]
  {
    hide Contains, Outside, LastMark, Unmarked;
    var o := Outside(STAMP_FIRST, "## S", false);
    StampFirstOutside();
    Lines();
    NoStar("## S");
    assert o[1] == "*Last updated: d*" && o[..1] == ["---"];
    LastMarkIs(o, 1);
    StampAlone();
  }

  lemma StampAlone()
    ensures Unmarked("*Last updated: d*") == "" && "" + MARK == MARK
  {
    assert "*Last updated: d*" == "" + Footer("d") by { assert Footer("d") == "*Last updated: d*"; }
    StampUnmarked("", "d");
  }

  lemma RuleAndMark()
    ensures !Mentions(["---", MARK], "## S") && HasFooter(["---", MARK])
  {
    hide Contains;
    assert '#' !in MARK;
    HashIsNotIn("---", "## S");
    HashIsNotIn(MARK, "## S");
    assert "---"[0..] == "---";
    assert FooterAt(["---", MARK], 0);
  }

  /** Writing the section cuts it off, and writing it again then adds it before the footer: the two
      together do not give what writing once would have given. */
  lemma TwiceIsNotOnce(date: string, date': string)
    requires '*' !in date && '#' !in date
    ensures
      var t := STAMP_FIRST;
      && HasHeader(t, Header("S")) && Tail(t, Header("S")) != []
      && !HoldsAfter(t, "S", ["c"], date)
      && Write(t, "S", ["c"], date) != []
      && Write(Write(t, "S", ["c"], date), "S", ["c"], date') != Write(t, "S", ["c"], date')
  {
    hide Contains, Outside, LastMark, Tail, HasHeader, UpToStamp, Mentions, HasFooter, NoMark, NoHeadings, Write,
      HoldsAfter, STAMP_FIRST;
    StampFirstParts();
    StampFirstUpToStamp();
    RuleAndMark();
    SectionWriteIsIdempotentExactly(STAMP_FIRST, "S", ["c"], date, date');
    SectionHoldsContentExactly(STAMP_FIRST, "S", ["c"], date);
  }

  /** The content carries a stamp, and none stands behind the section: the content is cut at it. */
  lemma ContentIsCut(date: string)
    ensures
      var t, content := NO_STAMP, ["*Last updated: e*", "more"];
      HasHeader(t, Header("S")) && NoHeadings(content) && !HoldsAfter(t, "S", content, date)
  {
    hide Contains, LastMark, Tail, HasHeader, HoldsAfter, IsHeading, Strip, StampLine;
    var t, content, tail := NO_STAMP, ["*Last updated: e*", "more"], ["## B", "y"];
    Lines();
    assert t == ["## S"] + (["x"] + tail);
    TailOf(tail);
    MarkedContent();
    SectionHoldsContentExactly(t, "S", content, date);
  }

  lemma MarkedContent()
    ensures
      var content := ["*Last updated: e*", "more"];
      NoHeadings(content) && LastMark(content) == 0 && !NoMark(content)
    ensures !Contains(Header("S"), MARK)
  {
    hide Contains, IsHeading, LastMark;
    var content := ["*Last updated: e*", "more"];
    StampLineIsPlain(content[0]);
    Plain("more");
    StartsWithMark(content[0]);
    NoStar("more");
    NoStar("## S");
    assert Header("S") == "## S";
    LastMarkIs(content, 0);
  }

  // ----- the file as it is first created

  const CURATED := "This file contains" + (" curated facts and" + (" preferences" + " learned over time."))

  const LOADED := "It is loaded into" + (" private sessions" + " to maintain context.")

  const INTRODUCTION: Text := ["# LADA Long-Term Memory", "", CURATED, LOADED, "", "---", ""]

  const PROFILE: Text := ["", "- **Name**: Unknown", "- **Preferred Language**: English", ""]

  const KEY_FACTS: Text := ["", "(Add important facts here)", ""]

  const PREFERENCES: Text := ["", "(Add user preferences here)", ""]

  const PROJECTS: Text := ["", "(Track ongoing projects)", ""]

  function BeforeProjects(): Text {
    INTRODUCTION + (["## User Profile"] + PROFILE) + (["## Key Facts"] + KEY_FACTS) + (["## Preferences"] + PREFERENCES)
  }

  function BeforeRule(): Text {
    BeforeProjects() + (["## Projects"] + PROJECTS)
  }

  /** What `_ensure_memory_file` writes. */
  function InitialFile(date: string): Text {
    BeforeRule() + ["---", Footer(date), ""]
  }

  lemma ShortStars(line: string)
    requires forall k | 0 <= k < |line| - 1 && line[k] == '*' :: line[k + 1] != 'L'
    ensures !Contains(line, MARK)
  {
    hide Contains;
    if Contains(line, MARK) {
      MarkAt(line);
    }
  }

  lemma MarkAt(line: string)
    requires Contains(line, MARK)
    ensures exists k :: 0 <= k < |line| - 1 && line[k] == '*' && line[k + 1] == 'L'
  {
    MarkIsThere(line, MARK, |line|);
    var k := LastAt(line, MARK);
    assert line[k..][0] == line[k] && line[k..][1] == line[k + 1];
  }

  lemma Plain(line: string)
    requires line != [] && !IsSpace(line[0]) && !("## " <= line)
    ensures !IsHeading(line)
  {
    if IsHeading(line) { HeadingStripsLeft(line); }
  }

  lemma TitleIsPlain()
    ensures !IsHeading("# LADA Long-Term Memory")
  {
    var title := "# LADA Long-Term Memory";
    assert title[1] == ' ';
    Plain(title);
  }

  lemma PlainLines()
    ensures NoHeadings(INTRODUCTION) && NoHeadings(PROFILE) && NoHeadings(KEY_FACTS)
    ensures NoHeadings(PREFERENCES) && NoHeadings(PROJECTS)
  {
    hide IsHeading;
    EmptyLineIsPlain();
    RuleIsPlain();
    TitleIsPlain();
    Plain(CURATED);
    Plain(LOADED);
    Plain("- **Name**: Unknown");
    Plain("- **Preferred Language**: English");
    Plain("(Add important facts here)");
    Plain("(Add user preferences here)");
    Plain("(Track ongoing projects)");
  }

  lemma UnmarkedLines()
    ensures NoMark(INTRODUCTION) && NoMark(PROFILE) && NoMark(KEY_FACTS) && NoMark(PREFERENCES) && NoMark(PROJECTS)
  {
    hide Contains;
    NoStar("");
    TitleIsUnmarked();
    CuratedIsUnmarked();
    LoadedIsUnmarked();
    ProfileIsUnmarked();
    HintsAreUnmarked();
  }

  lemma TitleIsUnmarked()
    ensures !Contains("# LADA Long-Term Memory", MARK) && !Contains("---", MARK)
  {
    hide Contains;
    NoStar("# LADA Long-Term Memory");
    NoStar("---");
  }

  lemma CuratedIsUnmarked()
    ensures !Contains(CURATED, MARK)
  {
    hide Contains;
    assert '*' !in CURATED;
    NoStar(CURATED);
  }

  lemma LoadedIsUnmarked()
    ensures !Contains(LOADED, MARK)
  {
    hide Contains;
    assert '*' !in LOADED;
    NoStar(LOADED);
  }

  lemma ProfileIsUnmarked()
    ensures !Contains("- **Name**: Unknown", MARK) && !Contains("- **Preferred Language**: English", MARK)
  {
    hide Contains;
    ShortStars("- **Name**: Unknown");
    ShortStars("- **Preferred Language**: English");
  }

  lemma HintsAreUnmarked()
    ensures !Contains("(Add important facts here)", MARK) && !Contains("(Add user preferences here)", MARK)
    ensures !Contains("(Track ongoing projects)", MARK)
  {
    hide Contains;
    NoStar("(Track ongoing projects)");
    NoStar("(Add important facts here)");
    NoStar("(Add user preferences here)");
  }

  lemma Headings()
    ensures forall x | x in ["## User Profile", "## Key Facts", "## Preferences", "## Projects"] ::
      IsHeading(x) && Strip(x) == x && !Contains(x, MARK)
  {
    hide Contains, Strip, IsHeading, IsSpace;
    Ends();
    Letter("## User Profile");
    Letter("## Key Facts");
    Letter("## Preferences");
    Letter("## Projects");
    HeadingsAreUnmarked();
  }

  lemma Ends()
    ensures forall c | c in "#es" :: !IsSpace(c)
  {
  }

  lemma HeadingsAreUnmarked()
    ensures !Contains("## User Profile", MARK) && !Contains("## Key Facts", MARK)
    ensures !Contains("## Preferences", MARK) && !Contains("## Projects", MARK)
  {
    hide Contains;
    NoStar("## User Profile");
    NoStar("## Key Facts");
    NoStar("## Preferences");
    NoStar("## Projects");
  }

  lemma PlainAfter(a: Text, x: string, p: Text, header: string)
    requires IsHeading(x) && Strip(x) == x && NoHeadings(p)
    ensures InSection(a + ([x] + p), header, false) == (x == header)
    ensures HasHeader(a + ([x] + p), header) <==> HasHeader(a, header) || x == header
  {
    hide Strip, IsHeading, InSection, HasHeader, IsHeader, Bodies, UntilHeading;
    OutsideConcat(a, [x] + p, header, false);
    Unfolded(x, p, header, [], InSection(a, header, false));
    PlainKeepsOpen(p, [], header, x == header);
    NothingInside(header, x == header);
    assert p + [] == p;
    HeaderHasBody(a + ([x] + p), header);
    HeaderHasBody(a, header);
    BodiesConcat(a, [x] + p, header);
    BodiesCons(x, p, header);
    PlainHasNoBodies(p, [], header);
    NoBodies(header);
    HeaderIs(x, header);
  }

  lemma HeaderIs(x: string, header: string)
    requires IsHeading(x) && Strip(x) == x
    ensures IsHeader(x, header) <==> x == header
  {
  }

  lemma NoMarkPart(a: Text, x: string, p: Text)
    requires NoMark(a) && NoMark(p) && !Contains(x, MARK)
    ensures NoMark(a + ([x] + p))
  {
    hide Contains;
    MarksOf([x], p);
    MarksOf(a, [x] + p);
  }

  /** Every section of the file but the last is closed before the footer. */
  lemma SectionsOfInitialFile(header: string)
    ensures NoMark(BeforeProjects()) && NoMark(BeforeRule())
    ensures HasHeader(BeforeRule(), header) <==>
      header in {"## User Profile", "## Key Facts", "## Preferences", "## Projects"}
    ensures InSection(BeforeRule(), header, false) <==> header == "## Projects"
  {
    hide Contains, Strip, IsHeading, InSection, HasHeader, INTRODUCTION, PROFILE, KEY_FACTS, PREFERENCES, PROJECTS;
    PlainLines();
    UnmarkedLines();
    Headings();
    var a := INTRODUCTION;
    var b := a + (["## User Profile"] + PROFILE);
    var c := b + (["## Key Facts"] + KEY_FACTS);
    PlainHasNoHeader(a, header);
    NoMarkPart(a, "## User Profile", PROFILE);
    NoMarkPart(b, "## Key Facts", KEY_FACTS);
    NoMarkPart(c, "## Preferences", PREFERENCES);
    NoMarkPart(BeforeProjects(), "## Projects", PROJECTS);
    PlainAfter(a, "## User Profile", PROFILE, header);
    PlainAfter(b, "## Key Facts", KEY_FACTS, header);
    PlainAfter(c, "## Preferences", PREFERENCES, header);
    PlainAfter(BeforeProjects(), "## Projects", PROJECTS, header);
  }

  lemma NoMarkNoStampLine(t: Text)
    requires NoMark(t)
    ensures NoStampLine(t)
  {
    hide Contains;
    forall i | 0 <= i < |t| ensures !(MARK <= t[i]) {
      if MARK <= t[i] { StartsWithMark(t[i]); }
    }
  }

  lemma InitialFileIsMemoryFile(date: string)
    requires '*' !in date
    ensures IsMemoryFile(InitialFile(date), BeforeRule())
  {
    hide BeforeRule, IsMemoryFile, Footer;
    SectionsOfInitialFile("");
    NoMarkNoStampLine(BeforeRule());
    WrittenIsMemoryFile(BeforeRule(), date);
  }

  /** Facts for different sections other than the last can be consolidated into the initial file. */
  lemma InitialFileTakesFacts(date: string, facts: seq<Fact>)
    requires '*' !in date
    requires forall i | 0 <= i < |facts| ::
      && facts[i].section in {"User Profile", "Key Facts", "Preferences"}
      && NoHeadings(facts[i].content) && NoStampLine(facts[i].content)
      && '*' !in facts[i].date && '#' !in facts[i].date
    requires forall i, j | 0 <= i < |facts| && 0 <= j < |facts| && i != j :: facts[i].section != facts[j].section
    ensures Consolidable(InitialFile(date), BeforeRule(), facts)
  {
    hide BeforeRule, IsMemoryFile, Footer, InitialFile, HasHeader, InSection, Mentions, Strip, NoHeadings, NoStampLine;
    InitialFileIsMemoryFile(date);
    forall i | 0 <= i < |facts|
      ensures HasHeader(BeforeRule(), Header(facts[i].section))
      ensures !InSection(BeforeRule(), Header(facts[i].section), false)
    {
      SectionsOfInitialFile(Header(facts[i].section));
      HeaderNames(facts[i].section);
    }
  }

  lemma HeaderNames(section: string)
    requires section in {"User Profile", "Key Facts", "Preferences"}
    ensures Header(section) in {"## User Profile", "## Key Facts", "## Preferences"} && Header(section) != "## Projects"
  {
    assert Header("User Profile") == "## User Profile";
    assert Header("Key Facts") == "## Key Facts";
    assert Header("Preferences") == "## Preferences";
    assert "## Projects"[3..] == "Projects" && Header(section)[3..] == section && section != "Projects";
  }

  // ----- the last section of the initial file

  lemma NoGoals(line: string)
    requires forall k | 0 <= k < |line| - 3 && line[k] == '#' :: line[k + 3] != 'G'
    ensures !Contains(line, "## Goals")
  {
    if Contains(line, "## Goals") {
      GoalsAt(line);
    }
  }

  lemma GoalsAt(line: string)
    requires Contains(line, "## Goals")
    ensures exists k :: 0 <= k < |line| - 3 && line[k] == '#' && line[k + 3] == 'G'
  {
    MarkIsThere(line, "## Goals", |line|);
    var k := LastAt(line, "## Goals");
    assert line[k..][0] == line[k] && line[k..][3] == line[k + 3];
  }

  lemma NoHash(t: Text)
    requires forall i | 0 <= i < |t| :: '#' !in t[i]
    ensures !Mentions(t, "## Goals")
  {
    hide Contains;
    forall i | 0 <= i < |t| ensures !Contains(t[i], "## Goals") { HashIsNotIn(t[i], "## Goals"); }
  }

  lemma NoGoalsPart(a: Text, x: string, p: Text)
    requires !Mentions(a, "## Goals") && !Mentions(p, "## Goals") && !Contains(x, "## Goals")
    ensures !Mentions(a + ([x] + p), "## Goals")
  {
    HeaderIsSilent(x, "## Goals");
    MentionsConcat([x], p, "## Goals");
    MentionsConcat(a, [x] + p, "## Goals");
  }

  lemma NoGoalsInIntroduction()
    ensures !Mentions(INTRODUCTION, "## Goals")
  {
    hide Contains;
    var title := "# LADA Long-Term Memory";
    NoGoals(title);
    assert '#' !in CURATED;
    assert '#' !in LOADED;
    NoHash(["", CURATED, LOADED, "", "---", ""]);
    HeaderIsSilent(title, "## Goals");
    MentionsConcat([title], ["", CURATED, LOADED, "", "---", ""], "## Goals");
    assert INTRODUCTION == [title] + ["", CURATED, LOADED, "", "---", ""];
  }

  lemma NoGoalsInBodies()
    ensures !Mentions(PROFILE, "## Goals") && !Mentions(KEY_FACTS, "## Goals")
    ensures !Mentions(PREFERENCES, "## Goals") && !Mentions(PROJECTS, "## Goals")
  {
    hide Contains, Mentions;
    NoGoalsInProfile();
    NoHash(KEY_FACTS);
    NoHash(PREFERENCES);
    NoHash(PROJECTS);
  }

  lemma NoGoalsInProfile()
    ensures !Mentions(PROFILE, "## Goals")
  {
    hide Contains, Mentions;
    NoHash(PROFILE);
  }

  lemma NoGoalsInHeadings()
    ensures !Contains("## User Profile", "## Goals") && !Contains("## Key Facts", "## Goals")
    ensures !Contains("## Preferences", "## Goals") && !Contains("## Projects", "## Goals")
  {
    hide Contains;
    NoGoals("## User Profile");
    NoGoals("## Key Facts");
    NoGoals("## Preferences");
    NoGoals("## Projects");
  }

  lemma NoGoalsYet(date: string)
    requires '#' !in date
    ensures !Mentions(InitialFile(date), "## Goals")
  {
    hide Contains, Mentions, INTRODUCTION, PROFILE, KEY_FACTS, PREFERENCES, PROJECTS, Footer;
    NoGoalsInIntroduction();
    NoGoalsInBodies();
    NoGoalsInHeadings();
    var a := INTRODUCTION;
    var b := a + (["## User Profile"] + PROFILE);
    var c := b + (["## Key Facts"] + KEY_FACTS);
    NoGoalsPart(a, "## User Profile", PROFILE);
    NoGoalsPart(b, "## Key Facts", KEY_FACTS);
    NoGoalsPart(c, "## Preferences", PREFERENCES);
    NoGoalsPart(BeforeProjects(), "## Projects", PROJECTS);
    FooterIsSilent(date, "## Goals");
    MentionsConcat(BeforeRule(), ["---", Footer(date), ""], "## Goals");
  }

  /** In the initial file, what stands outside its last section carries no stamp, and the footer stands
      inside it. */
  lemma LastSection(date: string)
    ensures
      var t, header := InitialFile(date), Header("Projects");
      && t != [] && HasHeader(t, header) && InSection(t, header, false) && NoMark(Outside(t, header, false))
  {
    hide Contains, Strip, IsHeading, InSection, HasHeader, Outside, BeforeProjects, PROJECTS, Footer;
    var header, footer := "## Projects", ["---", Footer(date), ""];
    assert Header("Projects") == header;
    SectionsOfInitialFile(header);
    OutsideNoMark(BeforeProjects(), header, false);
    PlainLines();
    Headings();
    FooterLinesPlain(date);
    HeaderInPrefix(BeforeRule(), footer, header);
    OutsideConcat(BeforeRule(), footer, header, false);
    PlainKeepsOpen(footer, [], header, true);
    OpenSectionDrops(footer, [], header, []);
    NothingInside(header, true);
    assert footer + [] == footer;
    OutsideConcat(BeforeProjects(), [header] + PROJECTS, header, false);
    Unfolded(header, PROJECTS, header, [], InSection(BeforeProjects(), header, false));
    OpenSectionDrops(PROJECTS, [], header, []);
    assert PROJECTS + [] == PROJECTS && [header] + [] == [header];
    MarksOf(Outside(BeforeProjects(), header, false), [header]);
    assert Outside(InitialFile(date), header, false) == Outside(BeforeProjects(), header, false) + [header] + [];
  }

  lemma FooterLinesPlain(date: string)
    ensures NoHeadings(["---", Footer(date), ""])
  {
    hide IsHeading;
    RuleIsPlain();
    StampIsPlain(date);
    EmptyLineIsPlain();
  }

  /** The text after its last section has been written mentions no new section. */
  lemma StillNoGoals(t: Text, section: string, content: Text, date: string)
    requires HasHeader(t, Header(section)) && InSection(t, Header(section), false)
    requires NoMark(Outside(t, Header(section), false)) && NoMark(content) && content != []
    requires !Mentions(t, "## Goals") && !Mentions(content, "## Goals") && '#' !in date
    ensures t != [] && !Mentions(Write(t, section, content, date), "## Goals")
  {
    hide Contains, HasHeader, InSection, Outside, Mentions, Footer, Rewrite, LastMark, NoMark, Body;
    var header := Header(section);
    var r := Rewrite(t, header, content, false);
    WriteIsStampedRewrite(t, section, content, date);
    RewriteNoMark(t, header, content, false);
    NoMarkMeans(r);
    OpenAtEnd(t, header, content, false);
    BodyEnd(r, content);
    BodyIsSilent(Fact("", content, ""), "## Goals");
    RewriteIsSilent(t, header, content, false, "## Goals");
    assert r == r[..|r| - 1] + [""] && "" + Footer(date) == Footer(date);
    MentionsConcat(r[..|r| - 1], [""], "## Goals");
    MentionsConcat(r[..|r| - 1], [Footer(date), ""], "## Goals");
    FooterIsSilent(date, "## Goals");
    MentionsConcat(["---"], [Footer(date), ""], "## Goals");
    assert ["---"] + [Footer(date), ""] == ["---", Footer(date), ""];
    assert Stamp(r, date) == r[..|r| - 1] + [Footer(date), ""];
  }

  /** Writing a fact into the last section of the initial file loses the next new section. */
  lemma InitialFileLosesGoals(date: string, date': string, date'': string)
    requires '#' !in date && '*' !in date' && '#' !in date'
    ensures
      var t := InitialFile(date);
      t != [] &&
      var u := Write(t, "Projects", ["Ship it"], date');
      !HasFooter(u) && Write(u, "Goals", ["Sleep"], date'') == Stamp(u, date'')
  {
    hide *;
    var t := InitialFile(date);
    LastSection(date);
    NoGoalsYet(date);
    ContentsAreHarmless();
    StillNoGoals(t, "Projects", ["Ship it"], date');
    LastSectionEditLosesNextSection(t, "Projects", ["Ship it"], date', "Goals", ["Sleep"], date'');
  }

  lemma ContentsAreHarmless()
    ensures NoMark(["Ship it"]) && NoMark(["Sleep"]) && !EndsWithRule("Ship it") && !Mentions(["Ship it"], "## Goals")
    ensures Header("Goals") == "## Goals" && !Contains(Header("Goals"), MARK)
  {
    hide Contains;
    NoStar("Ship it");
    NoStar("Sleep");
    NoHash(["Ship it"]);
    assert Header("Goals") == "## Goals";
    NoStar("## Goals");
    assert "Ship it"[4..] == " it";
  }
}
