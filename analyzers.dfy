/**
 * The aggregator and totals of src/log_analyzer/services/analyzers.py.
 *
 * A report is a Python dict from endpoint to a per-level record; it is modelled
 * as the sequence of its entries in dict iteration order (insertion order), with
 * no endpoint twice.
 */
module Analyzers {
  import opened Options
  import opened Text
  import opened LogUtils

  /** The per-endpoint record: one counter for each of the five levels. */
  datatype Counts = Counts(debug: nat, info: nat, warning: nat, error: nat, critical: nat) {

    function Get(l: Level): nat {
      match l
      case DEBUG => debug
      case INFO => info
      case WARNING => warning
      case ERROR => error
      case CRITICAL => critical
    }

    /** `record[l] += n`. */
    function Add(l: Level, n: nat): (c: Counts)
      ensures c.Get(l) == Get(l) + n
      ensures forall k :: k != l ==> c.Get(k) == Get(k)
    {
      match l
      case DEBUG => this.(debug := debug + n)
      case INFO => this.(info := info + n)
      case WARNING => this.(warning := warning + n)
      case ERROR => this.(error := error + n)
      case CRITICAL => this.(critical := critical + n)
    }
  }

  /** The record a first-seen endpoint starts from: every level at 0. */
  const Zero := Counts(0, 0, 0, 0, 0)

  /** Two records with the same five counters are the same record. */
  lemma CountsEqual(a: Counts, b: Counts)
    requires forall l :: a.Get(l) == b.Get(l)
    ensures a == b
  {
    assert a.Get(DEBUG) == b.Get(DEBUG) && a.Get(INFO) == b.Get(INFO);
    assert a.Get(WARNING) == b.Get(WARNING) && a.Get(ERROR) == b.Get(ERROR);
    assert a.Get(CRITICAL) == b.Get(CRITICAL);
  }

  /**
   * `count_total_requests`: the sum of the five counters. It is 0 exactly for
   * the all-zero record, which is what the caller's "no data" gate tests.
   */
  function TotalRequests(c: Counts): (n: nat)
    ensures n == 0 <==> c == Zero
    ensures forall l :: c.Get(l) <= n
  {
    c.debug + c.info + c.warning + c.error + c.critical
  }

  datatype Entry = Entry(endpoint: string, levels: Counts)

  /** The report dict, as its entries in iteration order. */
  type Report = seq<Entry>

  /** The report's keys, in iteration order. */
  function Endpoints(r: Report): (keys: seq<string>)
    ensures |keys| == |r|
    ensures forall i :: 0 <= i < |r| ==> keys[i] == r[i].endpoint
  {
    seq(|r|, i requires 0 <= i < |r| => r[i].endpoint)
  }

  predicate Distinct(keys: seq<string>) {
    forall i, j :: 0 <= i < j < |keys| ==> keys[i] != keys[j]
  }

  /** A sequence of entries that a dict can hold: no endpoint twice. */
  predicate IsDict(r: Report) {
    Distinct(Endpoints(r))
  }

  /** Where endpoint `e` sits in the report, if it is a key. */
  function IndexOf(r: Report, e: string): (k: Option<nat>)
    ensures k.Some? ==> k.value < |r| && r[k.value].endpoint == e
  {
    if r == [] then None
    else if r[0].endpoint == e then Some(0)
    else
      match IndexOf(r[1..], e)
      case None => None
      case Some(k) => Some(k + 1)
  }

  /** `IndexOf` finds every key: it fails exactly for an endpoint that is not a key. */
  lemma {:induction false} IndexOfNone(r: Report, e: string)
    ensures IndexOf(r, e).None? <==> e !in Endpoints(r)
  {
    if r != [] && r[0].endpoint != e {
      IndexOfNone(r[1..], e);
      assert Endpoints(r) == [r[0].endpoint] + Endpoints(r[1..]);
    }
  }

  /** In a dict, the position of a key is the only one holding it. */
  lemma IndexOfDict(r: Report, e: string, j: nat)
    requires IsDict(r) && j < |r| && r[j].endpoint == e
    ensures IndexOf(r, e) == Some(j)
  {
    assert Endpoints(r)[j] == e;
    IndexOfNone(r, e);
    var k := IndexOf(r, e).value;
    assert Endpoints(r)[k] == Endpoints(r)[j];
  }

  /** `report[e][l]` read without inserting: 0 for an endpoint that is not a key. */
  function CountOf(r: Report, e: string, l: Level): nat {
    match IndexOf(r, e)
    case None => 0
    case Some(k) => r[k].levels.Get(l)
  }

  /**
   * `report[e][l] += 1` on the defaultdict: the entry for `e` is created with
   * every level at 0 if `e` is not a key yet.
   */
  function Bump(r: Report, e: string, l: Level): Report {
    match IndexOf(r, e)
    case Some(k) => r[k := Entry(e, r[k].levels.Add(l, 1))]
    case None => r + [Entry(e, Zero.Add(l, 1))]
  }

  /**
   * The increment keeps the report a dict; a first-seen endpoint becomes the
   * last key in iteration order, and otherwise the keys and their order stay.
   */
  lemma BumpKeys(r: Report, e: string, l: Level)
    requires IsDict(r)
    ensures IsDict(Bump(r, e, l))
    ensures Endpoints(Bump(r, e, l)) == if e in Endpoints(r) then Endpoints(r) else Endpoints(r) + [e]
  {
    var r' := Bump(r, e, l);
    IndexOfNone(r, e);
    if e in Endpoints(r) {
      assert Endpoints(r') == Endpoints(r);
    } else {
      assert Endpoints(r') == Endpoints(r) + [e];
    }
  }

  /** The increment raises exactly `report[e][l]` by one and changes no other counter. */
  lemma BumpCounts(r: Report, e: string, l: Level)
    requires IsDict(r)
    ensures CountOf(Bump(r, e, l), e, l) == CountOf(r, e, l) + 1
    ensures forall e', l' :: (e', l') != (e, l) ==> CountOf(Bump(r, e, l), e', l') == CountOf(r, e', l')
  {
    BumpKeys(r, e, l);
    var r' := Bump(r, e, l);
    var k := if IndexOf(r, e).Some? then IndexOf(r, e).value else |r|;
    IndexOfDict(r', e, k);
    forall e', l' | (e', l') != (e, l)
      ensures CountOf(r', e', l') == CountOf(r, e', l')
    {
      if e' != e {
        IndexOfNone(r', e');
        IndexOfNone(r, e');
        match IndexOf(r', e')
        case None =>
        case Some(j) =>
          assert r'[j] == r[j];
          IndexOfDict(r, e', j);
      }
    }
  }

  /** Every entry holds at least one counted line. */
  predicate AllPositive(r: Report) {
    forall i :: 0 <= i < |r| ==> TotalRequests(r[i].levels) > 0
  }

  lemma BumpPositive(r: Report, e: string, l: Level)
    requires AllPositive(r)
    ensures AllPositive(Bump(r, e, l))
  {
    var r' := Bump(r, e, l);
    var k := if IndexOf(r, e).Some? then IndexOf(r, e).value else |r|;
    forall i | 0 <= i < |r'|
      ensures TotalRequests(r'[i].levels) > 0
    {
      if i == k {
        assert r'[i].levels.Get(l) >= 1;
      } else {
        assert r'[i] == r[i];
      }
    }
  }

  /** A line that names both a level and an endpoint. */
  datatype Event = Event(endpoint: string, level: Level)

  /**
   * The two searches of one line, on its `split()` tokens: an event when both a
   * level and an endpoint are found, nothing otherwise.
   */
  function Classify(line: string): Option<Event> {
    var tokens := Split(line);
    var level := FetchLogLevel(tokens);
    var endpoint := FetchEndpoint(tokens);
    if level.Some? && endpoint.Some? then Some(Event(endpoint.value, level.value)) else None
  }

  /** The events of a file's lines, in line order. */
  function LineEvents(lines: seq<string>): seq<Event> {
    if lines == [] then []
    else
      var ev := Classify(lines[|lines| - 1]);
      LineEvents(lines[..|lines| - 1]) + (if ev.Some? then [ev.value] else [])
  }

  /** One input file: its path and its lines, or None when loading it raises `FileLoadError`. */
  datatype LogFile = LogFile(path: string, load: Option<seq<string>>)

  /** The events of one file: none when its load fails. */
  function FileEvents(f: LogFile): seq<Event> {
    if f.load.None? then [] else LineEvents(f.load.value)
  }

  /** The event lists of a run of files, one per file. */
  function PerFile(files: seq<LogFile>): (parts: seq<seq<Event>>)
    ensures |parts| == |files|
  {
    seq(|files|, i requires 0 <= i < |files| => FileEvents(files[i]))
  }

  /** A run of event lists, one after the other. */
  function Concat(parts: seq<seq<Event>>): seq<Event> {
    if parts == [] then [] else Concat(parts[..|parts| - 1]) + parts[|parts| - 1]
  }

  /** The events of every file that loads, in file order and then line order. */
  function Events(files: seq<LogFile>): seq<Event> {
    Concat(PerFile(files))
  }

  /** The paths whose load failed, in file order: one logged error each. */
  function FailedPaths(files: seq<LogFile>): seq<string> {
    if files == [] then []
    else
      var f := files[|files| - 1];
      FailedPaths(files[..|files| - 1]) + (if f.load.None? then [f.path] else [])
  }

  /** The report after applying the increments of `evs`, in order, to `r`. */
  function Tally(r: Report, evs: seq<Event>): Report {
    if evs == [] then r
    else
      var ev := evs[|evs| - 1];
      Bump(Tally(r, evs[..|evs| - 1]), ev.endpoint, ev.level)
  }

  /** What `analyze_logs` returns: every event of every loaded file, counted into an empty report. */
  function Analyze(files: seq<LogFile>): Report {
    Tally([], Events(files))
  }

  lemma TallySnoc(r: Report, evs: seq<Event>, ev: Event)
    ensures Tally(r, evs + [ev]) == Bump(Tally(r, evs), ev.endpoint, ev.level)
  {
    assert (evs + [ev])[..|evs|] == evs;
  }

  /** Counting two runs of events one after the other is counting their concatenation. */
  lemma {:induction false} TallyAppend(r: Report, a: seq<Event>, b: seq<Event>)
    ensures Tally(Tally(r, a), b) == Tally(r, a + b)
    decreases |b|
  {
    if b == [] {
      assert a + b == a;
    } else {
      var ev := b[|b| - 1];
      TallyAppend(r, a, b[..|b| - 1]);
      assert (a + b)[..|a + b| - 1] == a + b[..|b| - 1];
    }
  }

  /** One more line of a file: counted when it classifies, skipped otherwise. */
  lemma LineStep(r: Report, lines: seq<string>, j: nat)
    requires j < |lines|
    ensures Tally(r, LineEvents(lines[..j + 1]))
         == var ev := Classify(lines[j]);
            if ev.Some? then Bump(Tally(r, LineEvents(lines[..j])), ev.value.endpoint, ev.value.level)
            else Tally(r, LineEvents(lines[..j]))
  {
    assert lines[..j + 1][..j] == lines[..j];
    var ev := Classify(lines[j]);
    if ev.Some? {
      assert LineEvents(lines[..j + 1]) == LineEvents(lines[..j]) + [ev.value];
      TallySnoc(r, LineEvents(lines[..j]), ev.value);
    } else {
      assert LineEvents(lines[..j + 1]) == LineEvents(lines[..j]);
    }
  }

  /** One more file: a loaded one has its lines counted, a failed one only its path logged. */
  lemma FileStep(files: seq<LogFile>, i: nat)
    requires i < |files|
    ensures files[i].load.None? ==>
              Analyze(files[..i + 1]) == Analyze(files[..i])
              && FailedPaths(files[..i + 1]) == FailedPaths(files[..i]) + [files[i].path]
    ensures files[i].load.Some? ==>
              Analyze(files[..i + 1]) == Tally(Analyze(files[..i]), LineEvents(files[i].load.value))
              && FailedPaths(files[..i + 1]) == FailedPaths(files[..i])
  {
    assert files[..i + 1][..i] == files[..i];
    assert PerFile(files[..i + 1]) == PerFile(files[..i]) + [FileEvents(files[i])];
    ConcatAppend(PerFile(files[..i]), [FileEvents(files[i])]);
    assert Concat([FileEvents(files[i])]) == FileEvents(files[i]);
    if files[i].load.Some? {
      TallyAppend([], Events(files[..i]), LineEvents(files[i].load.value));
    } else {
      assert Events(files[..i + 1]) == Events(files[..i]);
    }
  }

  /**
   * The inner loop of `analyze_logs`: the lines of one loaded file, in order,
   * each counted when it names both a level and an endpoint.
   */
  method CountLines(report0: Report, lines: seq<string>) returns (report: Report)
    ensures report == Tally(report0, LineEvents(lines))
  {
    report := report0;
    var j := 0;
    while j < |lines|
      invariant 0 <= j <= |lines|
      invariant report == Tally(report0, LineEvents(lines[..j]))
    {
      LineStep(report0, lines, j);
      var tokens := Split(lines[j]);
      var level := FetchLogLevel(tokens);
      var endpoint := FetchEndpoint(tokens);
      if level.Some? && endpoint.Some? {
        report := Bump(report, endpoint.value, level.value);
      }
      j := j + 1;
    }
    assert lines[..|lines|] == lines;
  }

  /**
   * `analyze_logs`: walks the files in order and, inside each loaded file, the
   * lines in order; a file whose load fails is skipped and its path logged.
   */
  method AnalyzeLogs(files: seq<LogFile>) returns (report: Report, failed: seq<string>)
    ensures report == Analyze(files)
    ensures failed == FailedPaths(files)
  {
    report := [];
    failed := [];
    var i := 0;
    while i < |files|
      invariant 0 <= i <= |files|
      invariant report == Analyze(files[..i])
      invariant failed == FailedPaths(files[..i])
    {
      FileStep(files, i);
      var load := files[i].load;
      if load.None? {
        failed := failed + [files[i].path];
      } else {
        report := CountLines(report, load.value);
      }
      i := i + 1;
    }
    assert files[..|files|] == files;
  }

  /** Tallying keeps a report a dict. */
  lemma {:induction false} TallyDict(r: Report, evs: seq<Event>)
    requires IsDict(r)
    ensures IsDict(Tally(r, evs))
    decreases |evs|
  {
    if evs != [] {
      var ev := evs[|evs| - 1];
      TallyDict(r, evs[..|evs| - 1]);
      BumpKeys(Tally(r, evs[..|evs| - 1]), ev.endpoint, ev.level);
    }
  }

  /** Each counter is raised by exactly the number of events for its endpoint and level. */
  lemma {:induction false} TallyCounts(r: Report, evs: seq<Event>, e: string, l: Level)
    requires IsDict(r)
    ensures CountOf(Tally(r, evs), e, l) == CountOf(r, e, l) + multiset(evs)[Event(e, l)]
    decreases |evs|
  {
    if evs != [] {
      var init, ev := evs[..|evs| - 1], evs[|evs| - 1];
      TallyCounts(r, init, e, l);
      TallyDict(r, init);
      BumpCounts(Tally(r, init), ev.endpoint, ev.level);
      assert evs == init + [ev];
    }
  }

  /** Keys are only ever appended: the keys before a run of events stay, in order, as a prefix. */
  lemma {:induction false} TallyKeysGrow(r: Report, evs: seq<Event>)
    requires IsDict(r)
    ensures Endpoints(r) <= Endpoints(Tally(r, evs))
    decreases |evs|
  {
    if evs != [] {
      var ev := evs[|evs| - 1];
      TallyKeysGrow(r, evs[..|evs| - 1]);
      TallyDict(r, evs[..|evs| - 1]);
      BumpKeys(Tally(r, evs[..|evs| - 1]), ev.endpoint, ev.level);
    }
  }

  /** A key after tallying was a key before or is the endpoint of one of the events. */
  lemma {:induction false} TallyKeysFrom(r: Report, evs: seq<Event>, e: string)
    requires IsDict(r)
    ensures e in Endpoints(Tally(r, evs)) <==> e in Endpoints(r) || exists i :: 0 <= i < |evs| && evs[i].endpoint == e
    decreases |evs|
  {
    if evs != [] {
      var init, ev := evs[..|evs| - 1], evs[|evs| - 1];
      TallyKeysFrom(r, init, e);
      TallyDict(r, init);
      BumpKeys(Tally(r, init), ev.endpoint, ev.level);
      if exists i :: 0 <= i < |evs| && evs[i].endpoint == e {
        var i :| 0 <= i < |evs| && evs[i].endpoint == e;
        if i < |init| {
          assert init[i].endpoint == e;
        }
      }
      if exists i :: 0 <= i < |init| && init[i].endpoint == e {
        var i :| 0 <= i < |init| && init[i].endpoint == e;
        assert evs[i].endpoint == e;
      }
    }
  }

  /** Tallying keeps every entry's counter sum positive. */
  lemma {:induction false} TallyPositive(r: Report, evs: seq<Event>)
    requires AllPositive(r)
    ensures AllPositive(Tally(r, evs))
    decreases |evs|
  {
    if evs != [] {
      var ev := evs[|evs| - 1];
      TallyPositive(r, evs[..|evs| - 1]);
      BumpPositive(Tally(r, evs[..|evs| - 1]), ev.endpoint, ev.level);
    }
  }

  /**
   * The counters of the result: `report[e][l]` is the number of classifiable
   * lines, over the files that load, that name endpoint `e` and level `l`.
   */
  lemma AnalyzeCounts(files: seq<LogFile>, e: string, l: Level)
    ensures CountOf(Analyze(files), e, l) == multiset(Events(files))[Event(e, l)]
  {
    TallyCounts([], Events(files), e, l);
  }

  /**
   * The keys of the result: no endpoint twice, each the endpoint of some
   * classifiable line, and every entry holds at least one counted line (entries
   * are only created by the increment).
   */
  lemma AnalyzeKeys(files: seq<LogFile>, e: string)
    ensures IsDict(Analyze(files)) && AllPositive(Analyze(files))
    ensures e in Endpoints(Analyze(files)) <==> exists i :: 0 <= i < |Events(files)| && Events(files)[i].endpoint == e
  {
    var evs := Events(files);
    TallyDict([], evs);
    TallyPositive([], evs);
    TallyKeysFrom([], evs, e);
    assert e !in Endpoints([]);
  }

  /**
   * The keys are in order of first occurrence: wherever a line names a later
   * key, some earlier line already named each earlier key.
   */
  lemma AnalyzeKeyOrder(files: seq<LogFile>, i: nat, j: nat, p: nat)
    requires i < j < |Analyze(files)|
    requires p < |Events(files)| && Events(files)[p].endpoint == Analyze(files)[j].endpoint
    ensures exists q :: 0 <= q < p && Events(files)[q].endpoint == Analyze(files)[i].endpoint
  {
    var evs := Events(files);
    var keys := Endpoints(Analyze(files));
    var upTo := Tally([], evs[..p + 1]);
    TallyDict([], evs[..p + 1]);
    TallyAppend([], evs[..p + 1], evs[p + 1..]);
    assert evs[..p + 1] + evs[p + 1..] == evs;
    TallyKeysGrow(upTo, evs[p + 1..]);
    var before := Endpoints(upTo);
    assert (evs[..p + 1])[p].endpoint == keys[j];
    TallyKeysFrom([], evs[..p + 1], keys[j]);
    TallyDict([], evs);
    assert j < |before| by {
      var m :| 0 <= m < |before| && before[m] == keys[j];
      assert keys[m] == keys[j];
    }
    assert keys[i] in before by {
      assert before[i] == keys[i];
    }
    TallyKeysFrom([], evs[..p + 1], keys[i]);
    var q :| 0 <= q < p + 1 && evs[..p + 1][q].endpoint == keys[i];
    assert keys[i] != keys[j];
    assert q != p;
    assert evs[q].endpoint == keys[i];
  }

  lemma {:induction false} ConcatAppend(p: seq<seq<Event>>, q: seq<seq<Event>>)
    ensures Concat(p + q) == Concat(p) + Concat(q)
    decreases |q|
  {
    if q == [] {
      assert p + q == p;
    } else {
      var pq, q' := p + q, q[..|q| - 1];
      ConcatAppend(p, q');
      assert pq[..|pq| - 1] == p + q';
    }
  }

  /** A run of files splits into its two parts. */
  lemma EventsAppend(a: seq<LogFile>, b: seq<LogFile>)
    ensures Events(a + b) == Events(a) + Events(b)
  {
    assert PerFile(a + b) == PerFile(a) + PerFile(b);
    ConcatAppend(PerFile(a), PerFile(b));
  }

  lemma {:induction false} FailedPathsAppend(a: seq<LogFile>, b: seq<LogFile>)
    ensures FailedPaths(a + b) == FailedPaths(a) + FailedPaths(b)
    decreases |b|
  {
    if b == [] {
      assert a + b == a;
    } else {
      var ab, b' := a + b, b[..|b| - 1];
      FailedPathsAppend(a, b');
      assert ab[..|ab| - 1] == a + b';
      assert ab[|ab| - 1] == b[|b| - 1];
    }
  }

  /**
   * Later files only add to the report of earlier ones: its keys stay a
   * prefix, in order, and no counter decreases.
   */
  lemma AnalyzeAppend(a: seq<LogFile>, b: seq<LogFile>, e: string, l: Level)
    ensures Analyze(a + b) == Tally(Analyze(a), Events(b))
    ensures Endpoints(Analyze(a)) <= Endpoints(Analyze(a + b))
    ensures CountOf(Analyze(a), e, l) <= CountOf(Analyze(a + b), e, l)
  {
    EventsAppend(a, b);
    TallyAppend([], Events(a), Events(b));
    TallyDict([], Events(a));
    TallyKeysGrow(Analyze(a), Events(b));
    TallyCounts(Analyze(a), Events(b), e, l);
  }

  /**
   * A file whose load raises `FileLoadError` contributes nothing but its
   * logged path, wherever it sits among the other files.
   */
  lemma AnalyzeSkipsFailed(a: seq<LogFile>, path: string, b: seq<LogFile>)
    ensures Analyze(a + [LogFile(path, None)] + b) == Analyze(a + b)
    ensures FailedPaths(a + [LogFile(path, None)] + b) == FailedPaths(a) + [path] + FailedPaths(b)
  {
    var f := [LogFile(path, None)];
    assert f[..0] == [];
    assert PerFile(f) == [[]];
    assert Concat([[]]) == [];
    assert Events(f) == [];
    assert FailedPaths(f) == [path];
    EventsAppend(a + f, b);
    EventsAppend(a, f);
    EventsAppend(a, b);
    FailedPathsAppend(a + f, b);
    FailedPathsAppend(a, f);
    assert Events(a + f + b) == Events(a + b);
  }

  /** The report is empty exactly when no line of a loaded file classifies (so for no files at all). */
  lemma AnalyzeEmpty(files: seq<LogFile>)
    ensures Analyze(files) == [] <==> Events(files) == []
  {
    var evs := Events(files);
    if evs != [] {
      var ev := evs[|evs| - 1];
      var r := Tally([], evs[..|evs| - 1]);
      match IndexOf(r, ev.endpoint)
      case Some(k) =>
      case None => assert |Bump(r, ev.endpoint, ev.level)| == |r| + 1;
    }
  }

  /** The sum, over the report's entries, of the counters at level `l`. */
  function ColumnSum(r: Report, l: Level): nat {
    if r == [] then 0 else ColumnSum(r[..|r| - 1], l) + r[|r| - 1].levels.Get(l)
  }

  /** What `count_total_log_levels` returns: the five column sums, as one record. */
  function ColumnSums(r: Report): (total: Counts)
    ensures forall l :: total.Get(l) == ColumnSum(r, l)
  {
    Counts(ColumnSum(r, DEBUG), ColumnSum(r, INFO), ColumnSum(r, WARNING), ColumnSum(r, ERROR), ColumnSum(r, CRITICAL))
  }

  lemma {:induction false} ColumnSumAppend(a: Report, b: Report, l: Level)
    ensures ColumnSum(a + b, l) == ColumnSum(a, l) + ColumnSum(b, l)
    decreases |b|
  {
    if b == [] {
      assert a + b == a;
    } else {
      var b' := b[..|b| - 1];
      ColumnSumAppend(a, b', l);
      assert (a + b)[..|a + b| - 1] == a + b';
    }
  }

  /** Taking one entry out of a report takes its counter out of each column. */
  lemma ColumnSumRemove(b: Report, i: nat, l: Level)
    requires i < |b|
    ensures ColumnSum(b, l) == ColumnSum(b[..i] + b[i + 1..], l) + b[i].levels.Get(l)
  {
    assert b == (b[..i] + [b[i]]) + b[i + 1..];
    ColumnSumAppend(b[..i] + [b[i]], b[i + 1..], l);
    ColumnSumAppend(b[..i], [b[i]], l);
    ColumnSumAppend(b[..i], b[i + 1..], l);
    assert [b[i]][..0] == [];
  }

  /**
   * In two reorderings of each other, the last entry of one sits somewhere in
   * the other, and what remains on each side is again a reordering.
   */
  lemma MatchLast(a: Report, b: Report) returns (i: nat)
    requires a != [] && multiset(a) == multiset(b)
    ensures i < |b| && b[i] == a[|a| - 1]
    ensures multiset(a[..|a| - 1]) == multiset(b[..i] + b[i + 1..])
  {
    var x, a' := a[|a| - 1], a[..|a| - 1];
    assert a == a' + [x];
    assert x in multiset(b);
    i :| 0 <= i < |b| && b[i] == x;
    assert b == b[..i] + [x] + b[i + 1..];
    assert multiset(b[..i] + b[i + 1..]) == multiset(b) - multiset{x};
  }

  /** The totals do not depend on the order the entries are visited in. */
  lemma {:induction false} ColumnSumPermutation(a: Report, b: Report, l: Level)
    requires multiset(a) == multiset(b)
    ensures ColumnSum(a, l) == ColumnSum(b, l)
    decreases |a|
  {
    if a == [] {
      assert |b| == |multiset(b)| == 0;
    } else {
      var i := MatchLast(a, b);
      ColumnSumPermutation(a[..|a| - 1], b[..i] + b[i + 1..], l);
      ColumnSumRemove(b, i, l);
    }
  }

  /** `count_total_log_levels` of a reordering of the report gives the same totals. */
  lemma ColumnSumsPermutation(a: Report, b: Report)
    requires multiset(a) == multiset(b)
    ensures ColumnSums(a) == ColumnSums(b)
  {
    forall l | true
      ensures ColumnSums(a).Get(l) == ColumnSums(b).Get(l)
    {
      ColumnSumPermutation(a, b, l);
    }
    CountsEqual(ColumnSums(a), ColumnSums(b));
  }

  /** The increment raises exactly the column of its level by one. */
  lemma ColumnSumBump(r: Report, e: string, l: Level, l': Level)
    ensures ColumnSum(Bump(r, e, l), l') == ColumnSum(r, l') + (if l == l' then 1 else 0)
  {
    var r' := Bump(r, e, l);
    match IndexOf(r, e)
    case Some(k) =>
      assert r' == r[k := Entry(e, r[k].levels.Add(l, 1))];
      assert r'[..k] + r'[k + 1..] == r[..k] + r[k + 1..];
      ColumnSumRemove(r, k, l');
      ColumnSumRemove(r', k, l');
    case None =>
      assert r' == r + [Entry(e, Zero.Add(l, 1))];
      assert r'[..|r|] == r;
  }

  /** The levels of a run of events, in order. */
  function LevelsOf(evs: seq<Event>): (ls: seq<Level>)
    ensures |ls| == |evs|
  {
    seq(|evs|, i requires 0 <= i < |evs| => evs[i].level)
  }

  lemma LevelsOfSnoc(evs: seq<Event>, ev: Event, l: Level)
    ensures multiset(LevelsOf(evs + [ev]))[l] == multiset(LevelsOf(evs))[l] + (if ev.level == l then 1 else 0)
  {
    assert LevelsOf(evs + [ev]) == LevelsOf(evs) + [ev.level];
  }

  /** Tallying raises each column by the number of events at that level. */
  lemma {:induction false} TallyColumnSum(r: Report, evs: seq<Event>, l: Level)
    ensures ColumnSum(Tally(r, evs), l) == ColumnSum(r, l) + multiset(LevelsOf(evs))[l]
    decreases |evs|
  {
    if evs != [] {
      var init, ev := evs[..|evs| - 1], evs[|evs| - 1];
      assert evs == init + [ev];
      assert Tally(r, evs) == Bump(Tally(r, init), ev.endpoint, ev.level);
      TallyColumnSum(r, init, l);
      ColumnSumBump(Tally(r, init), ev.endpoint, ev.level, l);
      LevelsOfSnoc(init, ev, l);
    }
  }

  /** The five columns of a run of levels add up to its length. */
  lemma {:induction false} LevelCountsTotal(ls: seq<Level>)
    ensures multiset(ls)[DEBUG] + multiset(ls)[INFO] + multiset(ls)[WARNING]
          + multiset(ls)[ERROR] + multiset(ls)[CRITICAL] == |ls|
    decreases |ls|
  {
    if ls != [] {
      var init, x := ls[..|ls| - 1], ls[|ls| - 1];
      LevelCountsTotal(init);
      assert ls == init + [x];
      forall y
        ensures multiset(ls)[y] == multiset(init)[y] + (if y == x then 1 else 0)
      {
        assert multiset(ls) == multiset(init) + multiset{x};
      }
    }
  }

  /**
   * The totals of the result: each column counts the classifiable lines at its
   * level, and `count_total_requests` of the totals counts every classifiable
   * line of every file that loads.
   */
  lemma AnalyzeTotals(files: seq<LogFile>, l: Level)
    ensures ColumnSums(Analyze(files)).Get(l) == multiset(LevelsOf(Events(files)))[l]
    ensures TotalRequests(ColumnSums(Analyze(files))) == |Events(files)|
  {
    var evs := Events(files);
    var ls := LevelsOf(evs);
    TallyColumnSum([], evs, l);
    TallyColumnSum([], evs, DEBUG);
    TallyColumnSum([], evs, INFO);
    TallyColumnSum([], evs, WARNING);
    TallyColumnSum([], evs, ERROR);
    TallyColumnSum([], evs, CRITICAL);
    LevelCountsTotal(ls);
  }

  /**
   * `count_total_log_levels`: for each record in iteration order, each of the
   * five keys of `total` in turn is raised by that record's counter.
   */
  method CountTotalLogLevels(report: Report) returns (total: Counts)
    ensures total == ColumnSums(report)
  {
    total := Zero;
    var i := 0;
    while i < |report|
      invariant 0 <= i <= |report|
      invariant forall l :: total.Get(l) == ColumnSum(report[..i], l)
    {
      var levels := report[i].levels;
      assert report[..i + 1][..i] == report[..i];
      var k := 0;
      while k < |Levels|
        invariant 0 <= k <= |Levels|
        invariant forall l :: total.Get(l) == ColumnSum(report[..i], l) + (if Position(l) < k then levels.Get(l) else 0)
      {
        var key := Levels[k];
        total := total.Add(key, levels.Get(key));
        k := k + 1;
      }
      i := i + 1;
    }
    assert report[..|report|] == report;
    CountsEqual(total, ColumnSums(report));
  }

  /**
   * The caller's "no data" gate: the total request count of a run is 0
   * exactly when its report is empty, that is, when no line of any loaded file
   * names both a level and an endpoint.
   */
  lemma AnalyzeNoData(files: seq<LogFile>)
    ensures TotalRequests(ColumnSums(Analyze(files))) == 0 <==> Analyze(files) == []
    ensures Analyze(files) == [] <==> Events(files) == []
  {
    AnalyzeTotals(files, DEBUG);
    AnalyzeEmpty(files);
  }
}
