/** The log summarisation agent without a language model: picking the task
    from the request text, pulling the timestamped lines out of it, parsing
    "date time LEVEL component message" lines, keeping the focus
    components, and the counts, per-component tallies, key issues and
    summary sentence it reports. */
module LogSummary {
  import opened Common

  // ---------------------------------------------------------------------
  // Timestamped lines

  predicate IsDigit(c: char)
  {
    '0' <= c <= '9'
  }

  /** `\s` on ASCII: space, tab, line feed, vertical tab, form feed,
      carriage return. */
  predicate IsSpace(c: char)
  {
    c == ' ' || 9 <= c as int <= 13
  }

  /** The shape of `\d{4}-\d{2}-\d{2}\s\d{2}:\d{2}:\d{2}`: 'd' stands for a
      digit and ' ' for a white-space character. */
  const TimestampShape: string := "dddd-dd-dd dd:dd:dd"

  predicate Fits(c: char, shape: char)
  {
    if shape == 'd' then IsDigit(c) else if shape == ' ' then IsSpace(c) else c == shape
  }

  /** `re.match(log_pattern, line)`: the line starts with a timestamp. */
  predicate HasTimestamp(line: string)
  {
    |line| >= |TimestampShape| && forall i :: 0 <= i < |TimestampShape| ==> Fits(line[i], TimestampShape[i])
  }

  /** The lines that start with a timestamp, in order. */
  function Timestamped(lines: seq<string>): seq<string>
  {
    if lines == [] then []
    else
      var n := |lines| - 1;
      Timestamped(lines[..n]) + (if HasTimestamp(lines[n]) then [lines[n]] else [])
  }

  /** `_extract_logs_from_message`. */
  function ExtractLogs(content: string): seq<string>
  {
    Timestamped(Split(content, '\n'))
  }

  /** The kept lines are exactly the timestamped ones. */
  lemma {:induction false} TimestampedMembers(lines: seq<string>, x: string)
    ensures x in Timestamped(lines) <==> x in lines && HasTimestamp(x)
  {
    if lines != [] {
      var n := |lines| - 1;
      TimestampedMembers(lines[..n], x);
      assert lines == lines[..n] + [lines[n]];
    }
  }

  /** Keeping distributes over concatenation, so the kept lines keep their
      relative order. */
  lemma {:induction false} TimestampedAppend(a: seq<string>, b: seq<string>)
    ensures Timestamped(a + b) == Timestamped(a) + Timestamped(b)
    decreases |b|
  {
    if b == [] {
      assert a + b == a;
    } else {
      var n := |b| - 1;
      TimestampedAppend(a, b[..n]);
      assert (a + b)[..|a + b| - 1] == a + b[..n];
    }
  }

  /** The extracted logs are lines of the message, each with a timestamp,
      and every timestamped line of the message is among them. */
  lemma ExtractLogsExact(content: string, x: string)
    ensures x in ExtractLogs(content) <==> x in Split(content, '\n') && HasTimestamp(x)
    ensures x in ExtractLogs(content) ==> '\n' !in x
  {
    TimestampedMembers(Split(content, '\n'), x);
  }

  // ---------------------------------------------------------------------
  // Task selection

  /** `process_message`'s choice of task. */
  function SelectTask(content: string): string
  {
    var lowered := Lower(content);
    if Contains(lowered, "summarize") || Contains(lowered, "summary") then "summarize"
    else if Contains(lowered, "pattern") || Contains(lowered, "anomaly") then "extract_patterns"
    else "summarize"
  }

  /** Patterns are extracted exactly when the request mentions a pattern or
      an anomaly and no summary; every other request is summarised. */
  lemma SelectTaskChoice(content: string)
    ensures SelectTask(content) == "summarize" || SelectTask(content) == "extract_patterns"
    ensures var lowered := Lower(content);
      SelectTask(content) == "extract_patterns" <==>
        !Contains(lowered, "summarize") && !Contains(lowered, "summary") &&
        (Contains(lowered, "pattern") || Contains(lowered, "anomaly"))
  {
  }

  // ---------------------------------------------------------------------
  // Splitting with a limit

  /** How many times `c` occurs in `s`. */
  function Occurrences(s: string, c: char): nat
  {
    if s == [] then 0 else (if s[0] == c then 1 else 0) + Occurrences(s[1..], c)
  }

  /** Python's `s.split(sep, maxsplit)` for a one-character separator: at
      most `maxsplit` cuts, at the first occurrences, the rest left whole. */
  function SplitMax(s: string, sep: char, maxsplit: nat): (r: seq<string>)
    ensures 1 <= |r| <= maxsplit + 1
    ensures forall k :: 0 <= k < |r| - 1 ==> sep !in r[k]
    decreases maxsplit
  {
    if maxsplit == 0 || sep !in s then [s]
    else
      var i := IndexOf(s, sep);
      [s[..i]] + SplitMax(s[i + 1..], sep, maxsplit - 1)
  }

  lemma {:induction false} OccurrencesFree(s: string, c: char)
    requires c !in s
    ensures Occurrences(s, c) == 0
  {
    if s != [] {
      OccurrencesFree(s[1..], c);
    }
  }

  lemma {:induction false} OccurrencesAt(s: string, c: char, i: nat)
    requires i < |s| && s[i] == c && c !in s[..i]
    ensures Occurrences(s, c) == 1 + Occurrences(s[i + 1..], c)
  {
    if i > 0 {
      assert s[0] == s[..i][0];
      assert s[1..][..i - 1] == s[1..i];
      assert forall k :: 1 <= k < i ==> s[k] == s[..i][k];
      assert s[1..][i..] == s[i + 1..];
      OccurrencesAt(s[1..], c, i - 1);
    }
  }

  /** The number of pieces: one more than the cuts, which are as many as
      the limit allows and the separators supply. */
  lemma {:induction false} SplitMaxCount(s: string, sep: char, maxsplit: nat)
    ensures |SplitMax(s, sep, maxsplit)| == 1 + (if Occurrences(s, sep) < maxsplit then Occurrences(s, sep) else maxsplit)
    decreases maxsplit
  {
    if sep !in s {
      OccurrencesFree(s, sep);
    } else if maxsplit > 0 {
      var i := IndexOf(s, sep);
      OccurrencesAt(s, sep, i);
      SplitMaxCount(s[i + 1..], sep, maxsplit - 1);
    }
  }

  /** Joining a first piece onto the rest. */
  lemma JoinCons(head: string, rest: seq<string>, sep: char)
    requires |rest| >= 1
    ensures Join([head] + rest, sep) == head + [sep] + Join(rest, sep)
  {
    var parts := [head] + rest;
    assert parts[0] == head && parts[1..] == rest;
  }

  /** A string is what comes before a position, the character there, and
      what comes after. */
  lemma AroundIndex(s: string, i: nat)
    requires i < |s|
    ensures s == s[..i] + [s[i]] + s[i + 1..]
  {
  }

  /** Joining the pieces with the separator gives back the string. */
  lemma {:induction false} SplitMaxJoin(s: string, sep: char, maxsplit: nat)
    ensures Join(SplitMax(s, sep, maxsplit), sep) == s
    decreases maxsplit
  {
    if maxsplit > 0 && sep in s {
      var i := IndexOf(s, sep);
      var rest := SplitMax(s[i + 1..], sep, maxsplit - 1);
      SplitMaxJoin(s[i + 1..], sep, maxsplit - 1);
      JoinCons(s[..i], rest, sep);
      AroundIndex(s, i);
    }
  }

  // ---------------------------------------------------------------------
  // Parsing

  datatype LogEntry = LogEntry(timestamp: string, level: string, component: string, message: string)

  /** One line: at least three spaces give date, time, level and a rest
      whose first word is the component and whose remainder is the
      message. */
  function ParseLine(log: string): Option<LogEntry>
  {
    var parts := SplitMax(log, ' ', 3);
    if |parts| >= 4 then
      var componentMessage := SplitMax(parts[3], ' ', 1);
      Some(LogEntry(parts[0] + " " + parts[1], parts[2], componentMessage[0],
                    if |componentMessage| > 1 then componentMessage[1] else ""))
    else None
  }

  /** Four pieces joined by a separator. */
  lemma JoinFour(parts: seq<string>, sep: char)
    requires |parts| == 4
    ensures Join(parts, sep) == parts[0] + [sep] + parts[1] + [sep] + parts[2] + [sep] + parts[3]
  {
    var p1, p2, p3 := parts[1..], parts[1..][1..], parts[1..][1..][1..];
    assert p3 == [parts[3]];
    assert Join(p2, sep) == parts[2] + [sep] + parts[3];
    assert Join(p1, sep) == parts[1] + [sep] + parts[2] + [sep] + parts[3];
  }

  /** A line parses exactly when it has three spaces. */
  lemma ParseLineParses(log: string)
    ensures ParseLine(log).Some? <==> Occurrences(log, ' ') >= 3
  {
    SplitMaxCount(log, ' ', 3);
  }

  /** The rest of a line is its component, then a space and the message
      if there is one. */
  lemma RestRebuilds(rest: string)
    ensures var cm := SplitMax(rest, ' ', 1);
      var message := if |cm| > 1 then cm[1] else "";
      ' ' !in cm[0] && (rest == cm[0] + " " + message || (rest == cm[0] && message == ""))
  {
    var cm := SplitMax(rest, ' ', 1);
    SplitMaxJoin(rest, ' ', 1);
    if |cm| > 1 {
      assert cm[1..] == [cm[1]];
    }
  }

  /** A line with four pieces is those pieces joined by spaces. */
  lemma LineParts(log: string)
    requires |SplitMax(log, ' ', 3)| >= 4
    ensures var p := SplitMax(log, ' ', 3);
      log == p[0] + " " + p[1] + " " + p[2] + " " + p[3]
  {
    SplitMaxJoin(log, ' ', 3);
    JoinFour(SplitMax(log, ' ', 3), ' ');
  }

  lemma Regroup(head: string, component: string, message: string)
    ensures head + " " + (component + " " + message) == head + " " + component + " " + message
  {
  }

  /** A parsed line is the timestamp, level, component and message put
      back together: the level and component hold no space, and the
      message is empty when the component ends the line. */
  lemma ParseLineRebuilds(log: string, e: LogEntry)
    requires ParseLine(log) == Some(e)
    ensures ' ' !in e.level && ' ' !in e.component
    ensures log == e.timestamp + " " + e.level + " " + e.component + " " + e.message ||
            (log == e.timestamp + " " + e.level + " " + e.component && e.message == "")
  {
    var p := SplitMax(log, ' ', 3);
    LineParts(log);
    var cm := SplitMax(p[3], ' ', 1);
    var message := if |cm| > 1 then cm[1] else "";
    assert e == LogEntry(p[0] + " " + p[1], p[2], cm[0], message);
    RestRebuilds(p[3]);
    var head := e.timestamp + " " + e.level;
    assert log == head + " " + p[3];
    if p[3] == e.component + " " + e.message {
      Regroup(head, e.component, e.message);
    } else {
      assert log == head + " " + e.component;
    }
  }

  /** The entries of the lines that parse, in order. */
  function Parsed(logs: seq<string>): seq<LogEntry>
  {
    if logs == [] then []
    else
      var n := |logs| - 1;
      var e := ParseLine(logs[n]);
      Parsed(logs[..n]) + (if e.Some? then [e.value] else [])
  }

  /** The parsing loop of `_summarize_logs`. */
  method ParseLogs(logs: seq<string>) returns (parsed: seq<LogEntry>)
    ensures parsed == Parsed(logs)
  {
    parsed := [];
    var k := 0;
    while k < |logs|
      invariant k <= |logs|
      invariant parsed == Parsed(logs[..k])
    {
      assert logs[..k + 1][..k] == logs[..k];
      var parts := SplitMax(logs[k], ' ', 3);
      if |parts| >= 4 {
        var componentMessage := SplitMax(parts[3], ' ', 1);
        var message := if |componentMessage| > 1 then componentMessage[1] else "";
        parsed := parsed + [LogEntry(parts[0] + " " + parts[1], parts[2], componentMessage[0], message)];
      }
      k := k + 1;
    }
    assert logs[..k] == logs;
  }

  /** Every parsed entry comes from one of the lines. */
  lemma {:induction false} ParsedFromLines(logs: seq<string>, e: LogEntry)
    ensures e in Parsed(logs) <==> exists line :: line in logs && ParseLine(line) == Some(e)
  {
    if logs != [] {
      var n := |logs| - 1;
      ParsedFromLines(logs[..n], e);
      assert logs == logs[..n] + [logs[n]];
    }
  }

  // ---------------------------------------------------------------------
  // Focus, counts and tallies

  /** The entries whose component is listed. */
  function OfComponents(entries: seq<LogEntry>, components: seq<string>): seq<LogEntry>
  {
    if entries == [] then []
    else
      var n := |entries| - 1;
      OfComponents(entries[..n], components) + (if entries[n].component in components then [entries[n]] else [])
  }

  /** `if focus_components:` filters only with a non-empty list. */
  function Focused(entries: seq<LogEntry>, focus: Option<seq<string>>): seq<LogEntry>
  {
    if focus.Some? && focus.value != [] then OfComponents(entries, focus.value) else entries
  }

  /** With a focus list, exactly the entries of the listed components are
      retained. */
  lemma {:induction false} FocusedMembers(entries: seq<LogEntry>, focus: Option<seq<string>>, e: LogEntry)
    ensures |Focused(entries, focus)| <= |entries|
    ensures e in Focused(entries, focus) <==> e in entries && (focus.Some? && focus.value != [] ==> e.component in focus.value)
  {
    if focus.Some? && focus.value != [] {
      OfComponentsMembers(entries, focus.value, e);
    }
  }

  lemma {:induction false} OfComponentsMembers(entries: seq<LogEntry>, components: seq<string>, e: LogEntry)
    ensures |OfComponents(entries, components)| <= |entries|
    ensures e in OfComponents(entries, components) <==> e in entries && e.component in components
  {
    if entries != [] {
      var n := |entries| - 1;
      OfComponentsMembers(entries[..n], components, e);
      assert entries == entries[..n] + [entries[n]];
    }
  }

  /** How many entries have level `level`. */
  function CountLevel(entries: seq<LogEntry>, level: string): (n: nat)
    ensures n <= |entries|
  {
    if entries == [] then 0
    else CountLevel(entries[..|entries| - 1], level) + (if entries[|entries| - 1].level == level then 1 else 0)
  }

  /** How many entries have component `c` and level `l`. */
  function CountPair(entries: seq<LogEntry>, c: string, l: string): nat
  {
    if entries == [] then 0
    else
      var e := entries[|entries| - 1];
      CountPair(entries[..|entries| - 1], c, l) + (if e.component == c && e.level == l then 1 else 0)
  }

  /** A dictionary from level to count, in insertion order. */
  type LevelCounts = seq<(string, nat)>

  /** `component_summary`: a dictionary from component to its level
      counts, in insertion order. */
  type ComponentSummary = seq<(string, LevelCounts)>

  /** `counts[level] += 1`, the key created at 0 when absent. */
  function BumpLevel(counts: LevelCounts, level: string): LevelCounts
  {
    if counts == [] then [(level, 1)]
    else if counts[0].0 == level then [(level, counts[0].1 + 1)] + counts[1..]
    else [counts[0]] + BumpLevel(counts[1..], level)
  }

  /** `component_summary[component][level] += 1`, creating the inner
      dictionary and the count when absent. */
  function Bump(s: ComponentSummary, component: string, level: string): ComponentSummary
  {
    if s == [] then [(component, BumpLevel([], level))]
    else if s[0].0 == component then [(component, BumpLevel(s[0].1, level))] + s[1..]
    else [s[0]] + Bump(s[1..], component, level)
  }

  /** The summary of the entries, tallied in order. */
  function SummaryOf(entries: seq<LogEntry>): ComponentSummary
  {
    if entries == [] then []
    else
      var n := |entries| - 1;
      Bump(SummaryOf(entries[..n]), entries[n].component, entries[n].level)
  }

  /** `component_summary.get(c, {}).get(l, 0)`. */
  function LevelLookup(counts: LevelCounts, level: string): nat
  {
    if counts == [] then 0 else if counts[0].0 == level then counts[0].1 else LevelLookup(counts[1..], level)
  }

  function Lookup(s: ComponentSummary, component: string, level: string): nat
  {
    if s == [] then 0 else if s[0].0 == component then LevelLookup(s[0].1, level) else Lookup(s[1..], component, level)
  }

  /** The sum of every count in the summary. */
  function LevelTotal(counts: LevelCounts): nat
  {
    if counts == [] then 0 else counts[0].1 + LevelTotal(counts[1..])
  }

  function Total(s: ComponentSummary): nat
  {
    if s == [] then 0 else LevelTotal(s[0].1) + Total(s[1..])
  }

  lemma {:induction false} BumpLevelCounts(counts: LevelCounts, level: string, l: string)
    ensures LevelTotal(BumpLevel(counts, level)) == LevelTotal(counts) + 1
    ensures LevelLookup(BumpLevel(counts, level), l) == LevelLookup(counts, l) + (if l == level then 1 else 0)
  {
    if counts != [] && counts[0].0 != level {
      BumpLevelCounts(counts[1..], level, l);
    }
  }

  lemma {:induction false} BumpCounts(s: ComponentSummary, component: string, level: string, c: string, l: string)
    ensures Total(Bump(s, component, level)) == Total(s) + 1
    ensures Lookup(Bump(s, component, level), c, l) == Lookup(s, c, l) + (if c == component && l == level then 1 else 0)
  {
    if s == [] {
      BumpLevelCounts([], level, l);
    } else if s[0].0 == component {
      BumpLevelCounts(s[0].1, level, l);
    } else {
      BumpCounts(s[1..], component, level, c, l);
    }
  }

  /** The tallies count every retained entry once: each (component, level)
      count is the number of entries with that pair, and all counts sum to
      the number of entries. */
  lemma {:induction false} SummaryCounts(entries: seq<LogEntry>, c: string, l: string)
    ensures Lookup(SummaryOf(entries), c, l) == CountPair(entries, c, l)
    ensures Total(SummaryOf(entries)) == |entries|
  {
    if entries != [] {
      var n := |entries| - 1;
      SummaryCounts(entries[..n], c, l);
      BumpCounts(SummaryOf(entries[..n]), entries[n].component, entries[n].level, c, l);
    }
  }

  /** The tallying loop of `_summarize_logs`. */
  method TallyComponents(entries: seq<LogEntry>) returns (summary: ComponentSummary)
    ensures summary == SummaryOf(entries)
  {
    summary := [];
    var k := 0;
    while k < |entries|
      invariant k <= |entries|
      invariant summary == SummaryOf(entries[..k])
    {
      assert entries[..k + 1][..k] == entries[..k];
      summary := Bump(summary, entries[k].component, entries[k].level);
      k := k + 1;
    }
    assert entries[..k] == entries;
  }

  // ---------------------------------------------------------------------
  // Key issues and the report

  predicate Serious(e: LogEntry)
  {
    e.level == "ERROR" || e.level == "WARN"
  }

  /** "component: message" for each serious entry, in order. */
  function Issues(entries: seq<LogEntry>): seq<string>
  {
    if entries == [] then []
    else
      var e := entries[|entries| - 1];
      Issues(entries[..|entries| - 1]) + (if Serious(e) then [e.component + ": " + e.message] else [])
  }

  /** The key issues without a model: those of the first five entries. */
  function KeyIssues(entries: seq<LogEntry>): seq<string>
  {
    PyPrefix(Issues(PyPrefix(entries, Some(5))), Some(5))
  }

  lemma {:induction false} IssuesMembers(entries: seq<LogEntry>, x: string)
    ensures |Issues(entries)| <= |entries|
    ensures x in Issues(entries) <==> exists e :: e in entries && Serious(e) && x == e.component + ": " + e.message
  {
    if entries != [] {
      var n := |entries| - 1;
      IssuesMembers(entries[..n], x);
      assert entries == entries[..n] + [entries[n]];
    }
  }

  /** At most five key issues, each the "component: message" of an ERROR
      or WARN entry among the first five retained ones. */
  lemma KeyIssuesMeaning(entries: seq<LogEntry>, x: string)
    ensures |KeyIssues(entries)| <= 5
    ensures x in KeyIssues(entries) <==>
      exists j :: 0 <= j < |entries| && j < 5 && Serious(entries[j]) && x == entries[j].component + ": " + entries[j].message
  {
    var first := PyPrefix(entries, Some(5));
    IssuesMembers(first, x);
    assert KeyIssues(entries) == Issues(first);
    if x in KeyIssues(entries) {
      var e :| e in first && Serious(e) && x == e.component + ": " + e.message;
      var j :| 0 <= j < |first| && first[j] == e;
      assert entries[j] == e;
    }
    if exists j :: 0 <= j < |entries| && j < 5 && Serious(entries[j]) && x == entries[j].component + ": " + entries[j].message {
      var j :| 0 <= j < |entries| && j < 5 && Serious(entries[j]) && x == entries[j].component + ": " + entries[j].message;
      assert first[j] == entries[j];
    }
  }

  datatype SummaryOutput = SummaryOutput(
    errorCount: nat,
    warningCount: nat,
    keyIssues: seq<string>,
    componentSummary: ComponentSummary,
    summaryText: string)

  function SummaryText(errors: nat, warnings: nat, components: nat): string
  {
    "Found " + NatToString(errors) + " errors and " + NatToString(warnings) + " warnings across " +
    NatToString(components) + " components."
  }

  /** `_summarize_logs` without a model: the first `max_entries` lines,
      parsed, focused, counted and tallied. */
  function Summarized(logs: seq<string>, maxEntries: Option<int>, focus: Option<seq<string>>): SummaryOutput
  {
    var entries := Focused(Parsed(PyPrefix(logs, maxEntries)), focus);
    var summary := SummaryOf(entries);
    SummaryOutput(CountLevel(entries, "ERROR"), CountLevel(entries, "WARN"), KeyIssues(entries), summary,
                  SummaryText(CountLevel(entries, "ERROR"), CountLevel(entries, "WARN"), |summary|))
  }

  /** What the report promises: the error and warning counts are those of
      the retained entries, which come from at most `max_entries` lines; the
      tallies sum to the number of retained entries and agree with the
      counts. */
  lemma SummarizedCounts(logs: seq<string>, maxEntries: nat, focus: Option<seq<string>>)
    ensures var entries := Focused(Parsed(PyPrefix(logs, Some(maxEntries))), focus);
      var out := Summarized(logs, Some(maxEntries), focus);
      && |entries| <= maxEntries
      && out.errorCount + out.warningCount <= |entries|
      && Total(out.componentSummary) == |entries|
      && (forall c :: Lookup(out.componentSummary, c, "ERROR") == CountPair(entries, c, "ERROR"))
  {
    var window := PyPrefix(logs, Some(maxEntries));
    var parsed := Parsed(window);
    ParsedLength(window);
    var entries := Focused(parsed, focus);
    FocusedLength(parsed, focus);
    LevelsDisjoint(entries);
    SummaryCounts(entries, "", "");
    forall c ensures Lookup(SummaryOf(entries), c, "ERROR") == CountPair(entries, c, "ERROR") {
      SummaryCounts(entries, c, "ERROR");
    }
  }

  lemma {:induction false} ParsedLength(logs: seq<string>)
    ensures |Parsed(logs)| <= |logs|
  {
    if logs != [] {
      ParsedLength(logs[..|logs| - 1]);
    }
  }

  lemma FocusedLength(entries: seq<LogEntry>, focus: Option<seq<string>>)
    ensures |Focused(entries, focus)| <= |entries|
  {
    if focus.Some? && focus.value != [] {
      OfComponentsMembers(entries, focus.value, LogEntry("", "", "", ""));
    }
  }

  /** An entry is an error or a warning, never both. */
  lemma {:induction false} LevelsDisjoint(entries: seq<LogEntry>)
    ensures CountLevel(entries, "ERROR") + CountLevel(entries, "WARN") <= |entries|
  {
    if entries != [] {
      LevelsDisjoint(entries[..|entries| - 1]);
    }
  }

  /** The entry counts the generator sums compute. */
  method CountLevels(entries: seq<LogEntry>) returns (errors: nat, warnings: nat)
    ensures errors == CountLevel(entries, "ERROR") && warnings == CountLevel(entries, "WARN")
  {
    errors, warnings := 0, 0;
    var k := 0;
    while k < |entries|
      invariant k <= |entries|
      invariant errors == CountLevel(entries[..k], "ERROR") && warnings == CountLevel(entries[..k], "WARN")
    {
      assert entries[..k + 1][..k] == entries[..k];
      if entries[k].level == "ERROR" {
        errors := errors + 1;
      }
      if entries[k].level == "WARN" {
        warnings := warnings + 1;
      }
      k := k + 1;
    }
    assert entries[..k] == entries;
  }

  /** `_summarize_logs` without a model, step by step. */
  method SummarizeLogs(logs: seq<string>, maxEntries: Option<int>, focus: Option<seq<string>>) returns (out: SummaryOutput)
    ensures out == Summarized(logs, maxEntries, focus)
  {
    var window := PyPrefix(logs, maxEntries);
    var parsed := ParseLogs(window);
    if focus.Some? && focus.value != [] {
      parsed := OfComponents(parsed, focus.value);
    }
    var errors, warnings := CountLevels(parsed);
    var summary := TallyComponents(parsed);
    var keyIssues := Issues(PyPrefix(parsed, Some(5)));
    out := SummaryOutput(errors, warnings, PyPrefix(keyIssues, Some(5)), summary, SummaryText(errors, warnings, |summary|));
  }

  /** `_extract_patterns`: the summary with its text marked as a pattern
      analysis. */
  function ExtractPatterns(summary: SummaryOutput): (r: SummaryOutput)
    ensures r.summaryText == "Pattern analysis: " + summary.summaryText
    ensures r == summary.(summaryText := r.summaryText)
  {
    summary.(summaryText := "Pattern analysis: " + summary.summaryText)
  }

  // ---------------------------------------------------------------------
  // Running a task

  datatype Outcome = Done(output: SummaryOutput) | Unsupported(taskId: string)

  /** `run`: input validation rejects a task the agent has not registered;
      the two registered tasks run on the validated input. */
  function Run(taskId: string, logs: seq<string>, maxEntries: Option<int>, focus: Option<seq<string>>): Outcome
  {
    if taskId == "summarize" then Done(Summarized(logs, maxEntries, focus))
    else if taskId == "extract_patterns" then Done(ExtractPatterns(Summarized(logs, maxEntries, focus)))
    else Unsupported(taskId)
  }

  /** `process_message`: the chosen task on the extracted lines, with the
      input defaults of at most 100 entries and no focus. */
  function ProcessMessage(content: string): Outcome
  {
    Run(SelectTask(content), ExtractLogs(content), Some(100), None)
  }

  /** Only the two registered tasks run, and a report reads as a pattern
      analysis exactly when the task was pattern extraction. */
  lemma RunOutcome(taskId: string, logs: seq<string>, maxEntries: Option<int>, focus: Option<seq<string>>)
    ensures Run(taskId, logs, maxEntries, focus).Done? <==> taskId == "summarize" || taskId == "extract_patterns"
    ensures Run(taskId, logs, maxEntries, focus).Done? ==>
      (StartsWith(Run(taskId, logs, maxEntries, focus).output.summaryText, "Pattern analysis: ") <==> taskId == "extract_patterns")
  {
    var out := Summarized(logs, maxEntries, focus);
    assert out.summaryText[0] == 'F';
    if taskId == "extract_patterns" {
      var text := ExtractPatterns(out).summaryText;
      assert text[..|"Pattern analysis: "|] == "Pattern analysis: ";
    }
  }

  /** A message always runs a task, reports at most 100 errors and
      warnings together, and reads as a pattern analysis exactly when the
      task chosen was pattern extraction. */
  lemma ProcessMessageOutcome(content: string)
    ensures ProcessMessage(content).Done?
    ensures StartsWith(ProcessMessage(content).output.summaryText, "Pattern analysis: ") <==>
      SelectTask(content) == "extract_patterns"
    ensures ProcessMessage(content).output.errorCount + ProcessMessage(content).output.warningCount <= 100
  {
    SelectTaskChoice(content);
    RunOutcome(SelectTask(content), ExtractLogs(content), Some(100), None);
    SummarizedCounts(ExtractLogs(content), 100, None);
  }
}
