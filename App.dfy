/**
 * The application shell: it owns the session history (completed sessions go in front of the
 * demonstration sessions, which are in chronological order), asks for an insight
 * about it, keeps the last insight and the selected tab, and renders the insight text and
 * the session list. The asynchronous insight call runs here as one sequential step whose
 * results are inputs.
 */
module App {
  import opened Types
  import opened Rounding
  import opened Strings
  import Dashboard
  import GeminiService

  /**
   * The three demonstration sessions the history starts with. Their timestamps are offsets
   * from the instant `now` the application starts at.
   */
  function MockSessions(now: int): (r: seq<FocusSession>)
    ensures |r| == 3
    ensures forall i, j :: 0 <= i < j < |r| ==> r[i].id != r[j].id
    ensures forall i :: 0 <= i < |r| ==> r[i].endTime.Some? && r[i].startTime < r[i].endTime.value <= now
    ensures forall i, j :: 0 <= i < j < |r| ==> r[i].endTime.value <= r[j].startTime
  {
    [ FocusSession("1", now - 7200000, Some(now - 5400000), 1800, Study, "Math Homework", 2),
      FocusSession("2", now - 5040000, Some(now - 4320000), 1200, Coding, "React Refactoring", 0),
      FocusSession("3", now - 3600000, Some(now - 2880000), 600, Distraction, "Social Media Scroll", 1) ]
  }

  /** Two focus sessions followed by a distraction split into those two parts. */
  lemma FilterFocusThenDistraction(a: FocusSession, b: FocusSession, c: FocusSession)
    requires a.category != Distraction && b.category != Distraction && c.category == Distraction
    ensures Dashboard.FocusSessions([a, b, c]) == [a, b]
    ensures Dashboard.DistractionSessions([a, b, c]) == [c]
  {
    var s := [a, b, c];
    assert s[..2] == [a, b] && [a, b][..1] == [a] && [a][..0] == [];
    assert Dashboard.FocusSessions([a]) == [a];
    assert Dashboard.FocusSessions([a, b]) == [a, b];
    assert Dashboard.DistractionSessions([a]) == [];
    assert Dashboard.DistractionSessions([a, b]) == [];
  }

  lemma TotalSecondsPair(a: FocusSession, b: FocusSession)
    ensures Dashboard.TotalSeconds([a, b]) == a.duration + b.duration
  {
    assert [a, b][..1] == [a] && [a][..0] == [];
    assert Dashboard.TotalSeconds([a]) == a.duration;
  }

  /** The demonstration data holds 3000 focus seconds and 600 distraction seconds. */
  lemma SeedSeconds(now: int)
    ensures Dashboard.FocusSeconds(MockSessions(now)) == 3000
    ensures Dashboard.DistractionSeconds(MockSessions(now)) == 600
  {
    var s := MockSessions(now);
    FilterFocusThenDistraction(s[0], s[1], s[2]);
    TotalSecondsPair(s[0], s[1]);
    assert [s[2]][..0] == [];
  }

  /** On the demonstration data the dashboard shows 50 focus minutes, 10 distraction minutes and 83%. */
  lemma SeedFigures(now: int)
    ensures Dashboard.FocusMinutes(MockSessions(now)) == 50
    ensures Dashboard.DistractionMinutes(MockSessions(now)) == 10
    ensures Dashboard.Efficiency(MockSessions(now)) == 83
  {
    SeedSeconds(now);
    RoundDivUnique(3000, 60, 50);
    RoundDivUnique(600, 60, 10);
    RoundDivUnique(300000, 3600, 83);
  }

  datatype Tab = Tracker | Insights

  class State {
    var sessions: seq<FocusSession>
    var isAnalyzing: bool
    var aiInsight: Option<string>
    var activeTab: Tab

    /** Between steps no request is in flight, and a stored insight is never empty. */
    ghost predicate Valid()
      reads this
    {
      !isAnalyzing && aiInsight != Some("")
    }

    constructor (now: int)
      ensures Valid()
      ensures sessions == MockSessions(now) && aiInsight == None && activeTab == Tracker
    {
      sessions := MockSessions(now);
      isAnalyzing := false;
      aiInsight := None;
      activeTab := Tracker;
    }

    /** `handleSessionComplete`: the finished session goes in front of the history. */
    method HandleSessionComplete(session: FocusSession)
      requires Valid()
      modifies this
      ensures Valid()
      ensures sessions == [session] + old(sessions)
      ensures aiInsight == old(aiInsight) && activeTab == old(activeTab)
    {
      sessions := [session] + sessions;
    }

    /**
     * `getAIAdvice`: nothing happens for an empty history; otherwise the analyzer is called
     * on the history with the analyzing flag raised, a returned text is stored and the
     * insights tab opened, a thrown error leaves both as they were, and the flag is lowered
     * in either case. `called` tells whether the analyzer was invoked.
     */
    method GetAIAdvice(clientCreated: bool, model: seq<GeminiService.SessionSummary> -> GeminiService.ModelReply)
      returns (called: bool)
      requires Valid()
      modifies this
      ensures Valid()
      ensures called <==> old(sessions) != []
      ensures sessions == old(sessions)
      ensures !called ==> unchanged(this)
      ensures called ==>
        match GeminiService.AnalyzeProductivity(old(sessions), clientCreated, model)
        case Returned(t) => aiInsight == Some(t) && activeTab == Insights
        case Threw => aiInsight == old(aiInsight) && activeTab == old(activeTab)
    {
      if |sessions| == 0 {
        return false;
      }
      isAnalyzing := true;
      var outcome := GeminiService.AnalyzeProductivity(sessions, clientCreated, model);
      match outcome {
        case Returned(t) =>
          aiInsight := Some(t);
          activeTab := Insights;
        case Threw =>
      }
      isAnalyzing := false;
      called := true;
    }
  }

  /** One paragraph of the rendered insight: a heading or a plain line. */
  datatype Paragraph = Heading(text: string) | Plain(text: string)

  /** A line starting with '#' is a heading with every '#' taken out; any other line is kept. */
  function RenderLine(line: string): (r: Paragraph)
    ensures r.Heading? <==> |line| > 0 && line[0] == '#'
    ensures r.Heading? ==> r.text == RemoveAll(line, '#')
    ensures r.Heading? ==> '#' !in r.text && |r.text| == |line| - multiset(line)['#']
    ensures r.Plain? ==> r.text == line
    ensures '\n' !in line ==> '\n' !in r.text
  {
    RemoveAllCounts(line, '#');
    assert '\n' !in line ==> multiset(line)['\n'] == 0;
    if |line| > 0 && line[0] == '#' then Heading(RemoveAll(line, '#')) else Plain(line)
  }

  /**
   * `aiInsight.split('\n').map(...)`: one paragraph per line. Headings are exactly the lines
   * that start with '#', and no heading keeps a '#'.
   */
  function RenderInsight(text: string): (r: seq<Paragraph>)
    ensures |r| == |Split(text, '\n')|
    ensures |r| == multiset(text)['\n'] + 1
    ensures forall i :: 0 <= i < |r| ==> '\n' !in r[i].text
    ensures forall i :: 0 <= i < |r| ==> (r[i].Heading? <==> Split(text, '\n')[i] != [] && Split(text, '\n')[i][0] == '#')
    ensures forall i :: 0 <= i < |r| ==> r[i].Heading? ==> r[i].text == RemoveAll(Split(text, '\n')[i], '#')
    ensures forall i :: 0 <= i < |r| ==> r[i].Heading? ==> '#' !in r[i].text
    ensures forall i :: 0 <= i < |r| ==> r[i].Heading? ==>
      |r[i].text| == |Split(text, '\n')[i]| - multiset(Split(text, '\n')[i])['#']
    ensures forall i :: 0 <= i < |r| ==> r[i].Plain? ==> r[i].text == Split(text, '\n')[i]
  {
    var lines := Split(text, '\n');
    SplitPieceCount(text, '\n');
    seq(|lines|, i requires 0 <= i < |lines| => RenderLine(lines[i]))
  }

  /** The texts of the paragraphs, in order. */
  function Texts(ps: seq<Paragraph>): seq<string>
  {
    seq(|ps|, i requires 0 <= i < |ps| => ps[i].text)
  }

  /** A text without any '#' renders as plain lines that join back into the text. */
  lemma PlainInsightRoundTrip(text: string)
    requires '#' !in text
    ensures forall i :: 0 <= i < |RenderInsight(text)| ==> RenderInsight(text)[i].Plain?
    ensures |Texts(RenderInsight(text))| >= 1 && Join(Texts(RenderInsight(text)), '\n') == text
  {
    var lines := Split(text, '\n');
    var r := RenderInsight(text);
    forall i | 0 <= i < |lines| ensures r[i] == Plain(lines[i]) {
      if |lines[i]| > 0 && lines[i][0] == '#' {
        SplitPiecesFromText(text, '\n', i);
      }
    }
    assert Texts(r) == lines;
    JoinSplit(text, '\n');
  }

  /** Every character of a piece of a split comes from the split text. */
  lemma {:induction false} SplitPiecesFromText(s: string, sep: char, i: nat)
    requires i < |Split(s, sep)|
    ensures forall c :: c in Split(s, sep)[i] ==> c in s
  {
    if s != [] {
      if s[0] == sep {
        if i > 0 {
          SplitPiecesFromText(s[1..], sep, i - 1);
        }
      } else {
        SplitPiecesFromText(s[1..], sep, i);
      }
    }
  }

  /** What the insights tab shows: `aiInsight ? paragraphs : placeholder`. */
  datatype InsightPanel = Placeholder | Paragraphs(ps: seq<Paragraph>)

  function InsightPanelOf(aiInsight: Option<string>): (r: InsightPanel)
    ensures r.Paragraphs? <==> aiInsight.Some? && aiInsight.value != ""
    ensures r.Paragraphs? ==> r.ps == RenderInsight(aiInsight.value)
    ensures r.Paragraphs? ==> |r.ps| == multiset(aiInsight.value)['\n'] + 1
  {
    if aiInsight.Some? && aiInsight.value != "" then Paragraphs(RenderInsight(aiInsight.value)) else Placeholder
  }

  /** Since a stored insight is never empty, the paragraphs show exactly when an insight is stored. */
  lemma PanelShowsStoredInsight(aiInsight: Option<string>)
    requires aiInsight != Some("")
    ensures InsightPanelOf(aiInsight).Paragraphs? <==> aiInsight.Some?
  {
  }

  /** The minutes the session list shows: `Math.floor(duration / 60)`. */
  function ListedMinutes(session: FocusSession): (r: int)
    ensures 60 * r <= session.duration < 60 * r + 60
  {
    FloorDiv(session.duration, 60)
  }

  /**
   * The list floors what the timeline rounds: the list shows the summary's minutes, and the
   * timeline shows the same number or one more, one more exactly from 30 leftover seconds up.
   */
  lemma ListedVersusTimeline(s: seq<FocusSession>, i: nat)
    requires i < |s|
    ensures ListedMinutes(s[i]) == GeminiService.Summarize(s)[i].durationMinutes
    ensures ListedMinutes(s[i]) <= Dashboard.Timeline(s)[i].minutes <= ListedMinutes(s[i]) + 1
    ensures Dashboard.Timeline(s)[i].minutes == ListedMinutes(s[i]) + 1 <==> s[i].duration % 60 >= 30
  {
    FloorBelowRound(s[i].duration, 60);
  }
}
