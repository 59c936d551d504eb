/**
 * Steps shared by the sample lemmas of `Samples`, stated for any lines,
 * tokens and endpoints.
 */
module SampleSteps {
  import opened Options
  import opened Text
  import opened LogUtils
  import opened Analyzers

  /** A token of printable ASCII characters other than the space. */
  predicate Visible(w: string) {
    |w| > 0 && forall i :: 0 <= i < |w| ==> '!' <= w[i] <= '~'
  }

  /** A line written as visible tokens separated by single spaces splits back into those tokens. */
  lemma SplitSample(tokens: seq<string>)
    requires forall k :: 0 <= k < |tokens| ==> Visible(tokens[k])
    ensures Split(JoinWords(tokens)) == tokens
  {
    SplitJoinWords(tokens);
  }

  /**
   * The layout of the sample request lines: the level name is the third token,
   * the endpoint the sixth, and no earlier token is either.
   */
  predicate RequestShape(t: seq<string>, e: string, l: Level) {
    && |t| >= 6 && t[2] == Name(l) && t[5] == e && IsEndpoint(e)
    && !IsLevelName(t[0]) && !IsLevelName(t[1])
    && !IsEndpoint(t[0]) && !IsEndpoint(t[1]) && !IsEndpoint(t[2]) && !IsEndpoint(t[3]) && !IsEndpoint(t[4])
  }

  /** A line whose tokens have that layout is one event: its endpoint at its level. */
  lemma RequestLine(line: string, t: seq<string>, e: string, l: Level)
    requires Split(line) == t && RequestShape(t, e, l)
    ensures Classify(line) == Some(Event(e, l))
  {
    LevelOfName(t[2]);
    assert FirstLevelAt(t, 2);
    assert FirstEndpointAt(t, 5);
    FetchLogLevelFirst(t);
    FetchEndpointFirst(t);
  }

  /** A line that is an event adds that event after those of the lines before it. */
  lemma EventsSnoc(lines: seq<string>, line: string, ev: Event)
    requires Classify(line) == Some(ev)
    ensures LineEvents(lines + [line]) == LineEvents(lines) + [ev]
  {
    assert (lines + [line])[..|lines|] == lines;
  }

  /** Four lines that are one event each give those events, in line order. */
  lemma FourEvents(l0: string, l1: string, l2: string, l3: string, e0: Event, e1: Event, e2: Event, e3: Event)
    requires Classify(l0) == Some(e0) && Classify(l1) == Some(e1)
    requires Classify(l2) == Some(e2) && Classify(l3) == Some(e3)
    ensures LineEvents([l0, l1, l2, l3]) == [e0, e1, e2, e3]
  {
    EventsSnoc([], l0, e0);
    assert [] + [l0] == [l0];
    EventsSnoc([l0], l1, e1);
    assert [l0] + [l1] == [l0, l1];
    EventsSnoc([l0, l1], l2, e2);
    assert [l0, l1] + [l2] == [l0, l1, l2];
    EventsSnoc([l0, l1, l2], l3, e3);
    assert [l0, l1, l2] + [l3] == [l0, l1, l2, l3];
  }

  /** A run of one file: its events, and its path among the failures exactly when it does not load. */
  lemma OneFile(f: LogFile)
    ensures Events([f]) == FileEvents(f)
    ensures FailedPaths([f]) == if f.load.None? then [f.path] else []
  {
    var parts := PerFile([f]);
    assert parts == [FileEvents(f)];
    assert parts[..0] == [] && [f][..0] == [];
    assert Concat(parts) == Concat([]) + FileEvents(f);
  }

  /** Four increments, in order, into an empty report. */
  lemma TallyFour(evs: seq<Event>)
    requires |evs| == 4
    ensures Tally([], evs) == Bump(Bump(Bump(Bump([], evs[0].endpoint, evs[0].level), evs[1].endpoint, evs[1].level), evs[2].endpoint, evs[2].level), evs[3].endpoint, evs[3].level)
  {
    var t1 := Bump([], evs[0].endpoint, evs[0].level);
    var t2 := Bump(t1, evs[1].endpoint, evs[1].level);
    var t3 := Bump(t2, evs[2].endpoint, evs[2].level);
    assert evs[..1][..0] == [] && evs[..1][0] == evs[0];
    assert Tally([], evs[..1]) == t1;
    assert evs[..2][..1] == evs[..1] && evs[..2][1] == evs[1];
    assert Tally([], evs[..2]) == t2;
    assert evs[..3][..2] == evs[..2] && evs[..3][2] == evs[2];
    assert Tally([], evs[..3]) == t3;
    assert evs[..3] == evs[..|evs| - 1];
  }

  /** Counting the analyser test's pattern of events, for two distinct endpoints, into an empty report. */
  lemma TallyPattern(e: string, c: string)
    requires e != c
    ensures Tally([], [Event(e, INFO), Event(e, ERROR), Event(c, INFO), Event(e, WARNING)])
         == [Entry(e, Counts(0, 1, 1, 1, 0)), Entry(c, Counts(0, 1, 0, 0, 0))]
  {
    TallyFour([Event(e, INFO), Event(e, ERROR), Event(c, INFO), Event(e, WARNING)]);
    var r1 := [Entry(e, Counts(0, 1, 0, 0, 0))];
    var r2 := [Entry(e, Counts(0, 1, 0, 1, 0))];
    var r3 := [Entry(e, Counts(0, 1, 0, 1, 0)), Entry(c, Counts(0, 1, 0, 0, 0))];
    assert Bump([], e, INFO) == r1;
    assert IndexOf(r1, e) == Some(0);
    assert Bump(r1, e, ERROR) == r2;
    assert IndexOf(r2, c) == None;
    assert Bump(r2, c, INFO) == r3;
    assert IndexOf(r3, e) == Some(0);
  }

  /** The column sums of a two-entry report. */
  lemma ColumnSumsTwo(a: Entry, b: Entry, l: Level)
    ensures ColumnSums([a, b]).Get(l) == a.levels.Get(l) + b.levels.Get(l)
  {
    assert [a, b][..1] == [a] && [a][..0] == [];
    assert ColumnSum([a], l) == a.levels.Get(l);
    assert ColumnSum([a, b], l) == ColumnSum([a], l) + b.levels.Get(l);
  }
}

/**
 * The expectations of the repository's unit tests, stated on the model. A
 * sample log line is the single-space join of its tokens, which is how the
 * test lines are written, so its `split()` is those tokens again.
 */
module Samples {
  import opened Options
  import opened Text
  import opened LogUtils
  import opened Analyzers
  import opened SampleSteps

  /**
   * The `split()` tokens of the four request lines of src/tests/test_analyzers.py
   * (the first is also the request line of src/tests/test_utils.py) and of the
   * management line of src/tests/test_utils.py.
   */
  const GetReviews: seq<string> :=
    ["2025-03-28", "12:44:46,000", "INFO", "django.request:", "GET", "/api/v1/reviews/", "204", "OK", "[192.168.1.59]"]
  const PostReviews: seq<string> :=
    ["2025-03-28", "12:45:46,000", "ERROR", "django.request:", "POST", "/api/v1/reviews/", "500", "Internal", "Server", "Error", "[192.168.1.59]"]
  const GetComments: seq<string> :=
    ["2025-03-28", "12:46:46,000", "INFO", "django.request:", "GET", "/api/v1/comments/", "200", "OK", "[192.168.1.59]"]
  const DeleteReviews: seq<string> :=
    ["2025-03-28", "12:47:46,000", "WARNING", "django.request:", "DELETE", "/api/v1/reviews/", "404", "Not", "Found", "[192.168.1.59]"]
  const Deadlock: seq<string> :=
    ["2025-03-28", "12:40:47,000", "CRITICAL", "django.core.management:", "DatabaseError:", "Deadlock", "detected"]

  const Reviews := "/api/v1/reviews/"
  const Comments := "/api/v1/comments/"

  // Each sample's tokens are visible, checked in two halves, so the line they
  // make when joined by single spaces splits back into them.

  lemma GetReviewsHead()
    ensures forall k :: 0 <= k < 4 ==> Visible(GetReviews[k])
  {
    var t := GetReviews;
    assert Visible(t[0]) && Visible(t[1]) && Visible(t[2]) && Visible(t[3]);
  }

  lemma GetReviewsTail()
    ensures forall k :: 4 <= k < 9 ==> Visible(GetReviews[k])
  {
    var t := GetReviews;
    assert Visible(t[4]) && Visible(t[5]) && Visible(t[6]) && Visible(t[7]) && Visible(t[8]);
  }

  lemma GetReviewsSplit()
    ensures Split(JoinWords(GetReviews)) == GetReviews
  {
    GetReviewsHead();
    GetReviewsTail();
    SplitSample(GetReviews);
  }

  lemma PostReviewsHead()
    ensures forall k :: 0 <= k < 5 ==> Visible(PostReviews[k])
  {
    var t := PostReviews;
    assert Visible(t[0]) && Visible(t[1]) && Visible(t[2]) && Visible(t[3]) && Visible(t[4]);
  }

  lemma PostReviewsTail()
    ensures forall k :: 5 <= k < 11 ==> Visible(PostReviews[k])
  {
    var t := PostReviews;
    assert Visible(t[5]) && Visible(t[6]) && Visible(t[7]) && Visible(t[8]) && Visible(t[9]) && Visible(t[10]);
  }

  lemma PostReviewsSplit()
    ensures Split(JoinWords(PostReviews)) == PostReviews
  {
    PostReviewsHead();
    PostReviewsTail();
    SplitSample(PostReviews);
  }

  lemma GetCommentsHead()
    ensures forall k :: 0 <= k < 4 ==> Visible(GetComments[k])
  {
    var t := GetComments;
    assert Visible(t[0]) && Visible(t[1]) && Visible(t[2]) && Visible(t[3]);
  }

  lemma GetCommentsTail()
    ensures forall k :: 4 <= k < 9 ==> Visible(GetComments[k])
  {
    var t := GetComments;
    assert Visible(t[4]) && Visible(t[5]) && Visible(t[6]) && Visible(t[7]) && Visible(t[8]);
  }

  lemma GetCommentsSplit()
    ensures Split(JoinWords(GetComments)) == GetComments
  {
    GetCommentsHead();
    GetCommentsTail();
    SplitSample(GetComments);
  }

  lemma DeleteReviewsHead()
    ensures forall k :: 0 <= k < 5 ==> Visible(DeleteReviews[k])
  {
    var t := DeleteReviews;
    assert Visible(t[0]) && Visible(t[1]) && Visible(t[2]) && Visible(t[3]) && Visible(t[4]);
  }

  lemma DeleteReviewsTail()
    ensures forall k :: 5 <= k < 10 ==> Visible(DeleteReviews[k])
  {
    var t := DeleteReviews;
    assert Visible(t[5]) && Visible(t[6]) && Visible(t[7]) && Visible(t[8]) && Visible(t[9]);
  }

  lemma DeleteReviewsSplit()
    ensures Split(JoinWords(DeleteReviews)) == DeleteReviews
  {
    DeleteReviewsHead();
    DeleteReviewsTail();
    SplitSample(DeleteReviews);
  }

  lemma DeadlockHead()
    ensures forall k :: 0 <= k < 3 ==> Visible(Deadlock[k])
  {
    var t := Deadlock;
    assert Visible(t[0]) && Visible(t[1]) && Visible(t[2]);
  }

  lemma DeadlockTail()
    ensures forall k :: 3 <= k < 7 ==> Visible(Deadlock[k])
  {
    var t := Deadlock;
    assert Visible(t[3]) && Visible(t[4]) && Visible(t[5]) && Visible(t[6]);
  }

  lemma DeadlockSplit()
    ensures Split(JoinWords(Deadlock)) == Deadlock
  {
    DeadlockHead();
    DeadlockTail();
    SplitSample(Deadlock);
  }

  // Each request line names its level third and its endpoint sixth.

  lemma GetReviewsShape()
    ensures RequestShape(GetReviews, Reviews, INFO)
  {
  }

  lemma PostReviewsShape()
    ensures RequestShape(PostReviews, Reviews, ERROR)
  {
  }

  lemma GetCommentsShape()
    ensures RequestShape(GetComments, Comments, INFO)
  {
  }

  lemma DeleteReviewsShape()
    ensures RequestShape(DeleteReviews, Reviews, WARNING)
  {
  }

  lemma EndpointsDiffer()
    ensures Reviews != Comments
  {
    assert Reviews[8] != Comments[8];
  }

  /** The request line of the classifier tests gives the reviews endpoint and INFO. */
  lemma RequestLineSample()
    ensures FetchEndpoint(GetReviews) == Some(Reviews)
    ensures FetchLogLevel(GetReviews) == Some(INFO)
  {
    var t := GetReviews;
    assert t[1..][1..][1..] == t[3..];
    assert FetchEndpoint(t[3..]) == FetchEndpoint(t[5..]);
  }

  /** The management line of the classifier tests has no endpoint; its level is CRITICAL. */
  lemma ManagementLineSample()
    ensures FetchEndpoint(Deadlock) == None
    ensures FetchLogLevel(Deadlock) == Some(CRITICAL)
  {
  }

  /** A blank line splits into no tokens, so it has neither an endpoint nor a level. */
  lemma BlankLineSample()
    ensures Split(" ") == []
    ensures FetchEndpoint(Split(" ")) == None && FetchLogLevel(Split(" ")) == None
  {
    assert IsSpace(' ');
    assert " "[1..] == [];
  }

  /** The report the analyser test expects, with the reviews endpoint first. */
  const SampleReport: Report :=
    [Entry(Reviews, Counts(0, 1, 1, 1, 0)), Entry(Comments, Counts(0, 1, 0, 0, 0))]

  /**
   * The analyser test: one file whose four lines split like the sample lines
   * gives the reviews endpoint with INFO, WARNING and ERROR at 1, then the
   * comments endpoint with INFO at 1, and every other counter at 0.
   */
  lemma AnalyzeSample(l0: string, l1: string, l2: string, l3: string)
    requires Split(l0) == GetReviews && Split(l1) == PostReviews
    requires Split(l2) == GetComments && Split(l3) == DeleteReviews
    ensures Analyze([LogFile("fakelogfile.log", Some([l0, l1, l2, l3]))]) == SampleReport
    ensures FailedPaths([LogFile("fakelogfile.log", Some([l0, l1, l2, l3]))]) == []
  {
    GetReviewsShape();
    PostReviewsShape();
    GetCommentsShape();
    DeleteReviewsShape();
    RequestLine(l0, GetReviews, Reviews, INFO);
    RequestLine(l1, PostReviews, Reviews, ERROR);
    RequestLine(l2, GetComments, Comments, INFO);
    RequestLine(l3, DeleteReviews, Reviews, WARNING);
    FourEvents(l0, l1, l2, l3, Event(Reviews, INFO), Event(Reviews, ERROR), Event(Comments, INFO), Event(Reviews, WARNING));
    OneFile(LogFile("fakelogfile.log", Some([l0, l1, l2, l3])));
    EndpointsDiffer();
    TallyPattern(Reviews, Comments);
  }

  /** The load-error test: the one file fails to load, so the report is empty and its path is logged. */
  lemma LoadErrorSample()
    ensures Analyze([LogFile("nonexistent.log", None)]) == []
    ensures FailedPaths([LogFile("nonexistent.log", None)]) == ["nonexistent.log"]
  {
    OneFile(LogFile("nonexistent.log", None));
  }

  /** The totals test: the two-entry report sums to INFO 2, WARNING 1, ERROR 1. */
  lemma ColumnSumsSample()
    ensures ColumnSums(SampleReport) == Counts(0, 2, 1, 1, 0)
  {
    forall l ensures ColumnSums(SampleReport).Get(l) == Counts(0, 2, 1, 1, 0).Get(l) {
      ColumnSumsTwo(SampleReport[0], SampleReport[1], l);
    }
    CountsEqual(ColumnSums(SampleReport), Counts(0, 2, 1, 1, 0));
  }

  /** The total-requests test: 3 + 1 + 3 + 7 + 3. */
  lemma TotalRequestsSample()
    ensures TotalRequests(Counts(3, 1, 3, 7, 3)) == 17
  {
  }
}
