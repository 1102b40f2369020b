/**
 * The tracker of state 0's largest Q-value per episode (max_q_value_state_0_tracker.py): the
 * client log is scanned line by line, the Q-values logged for state 0 since the last episode
 * marker are folded into a running maximum that each marker stores and resets, and the
 * results are appended to a CSV under the next run number. Reading the number after the
 * colon (the regular expression's number part and float()) is the parameter `numberOf`.
 */
module MaxQTracker {
  import opened Wrappers
  import opened Text
  import opened LogText

  const EPISODE_MARKER: string := "=== End of Episode Summary ==="
  const Q_PREFIX: string := "Updated Q-value for state 0, action "

  predicate IsMarker(line: string)
  {
    PyStrip(line) == EPISODE_MARKER
  }

  /**
   * The Q-value a stripped line reports for state 0: the prefix, the action's digits, a colon,
   * at least one blank, then the number; None when the line does not match.
   */
  function QValue(line: string, numberOf: string -> Option<real>): (r: Option<real>)
    ensures r.Some? ==> StartsWith(line, Q_PREFIX)
  {
    if !StartsWith(line, Q_PREFIX) then None else AfterPrefix(line[|Q_PREFIX|..], numberOf)
  }

  /** The pattern after the prefix: the action's digits, a colon, at least one blank, then the number. */
  function AfterPrefix(rest: string, numberOf: string -> Option<real>): Option<real>
  {
    var d := DigitRun(rest);
    if d == 0 || d == |rest| || rest[d] != ':' then None
    else
      var after := rest[d + 1..];
      var w := BlankRun(after);
      if w == 0 then None else numberOf(after[w..])
  }

  /** Python's `\s+`, taken greedily: a non-empty run of blanks that the rest does not continue. */
  predicate BlanksBefore(blanks: string, tail: string)
  {
    && blanks != []
    && (forall i :: 0 <= i < |blanks| ==> PyBlank(blanks[i]))
    && (tail == [] || !PyBlank(tail[0]))
  }

  /** What follows the prefix in a matching line: the action's digits, ':', blanks, then the number's text. */
  predicate RestShape(rest: string, digits: string, blanks: string, tail: string)
  {
    rest == digits + (":" + (blanks + tail)) && IsDigits(digits) && BlanksBefore(blanks, tail)
  }

  /** A line of the pattern's shape: the prefix, then the rest as RestShape has it. */
  predicate QShape(line: string, digits: string, blanks: string, tail: string)
  {
    StartsWith(line, Q_PREFIX) && RestShape(line[|Q_PREFIX|..], digits, blanks, tail)
  }

  lemma DigitRunOf(digits: string, rest: string)
    requires IsDigits(digits) && rest != [] && !IsDigit(rest[0])
    ensures DigitRun(digits + rest) == |digits|
  {
    var s := digits + rest;
    assert s[|digits|] == rest[0];
    assert forall i :: 0 <= i < |digits| ==> s[i] == digits[i];
  }

  lemma BlankRunOf(blanks: string, tail: string)
    requires BlanksBefore(blanks, tail)
    ensures BlankRun(blanks + tail) == |blanks|
  {
    var s := blanks + tail;
    assert forall i :: 0 <= i < |blanks| ==> s[i] == blanks[i];
    assert |blanks| < |s| ==> s[|blanks|] == tail[0];
  }

  lemma AfterPrefixOfShape(digits: string, blanks: string, tail: string, numberOf: string -> Option<real>)
    requires IsDigits(digits) && BlanksBefore(blanks, tail)
    ensures AfterPrefix(digits + (":" + (blanks + tail)), numberOf) == numberOf(tail)
  {
    var rest := digits + (":" + (blanks + tail));
    DigitRunOf(digits, ":" + (blanks + tail));
    assert rest[|digits|] == ':';
    assert rest[|digits| + 1..] == blanks + tail;
    BlankRunOf(blanks, tail);
    assert (blanks + tail)[|blanks|..] == tail;
  }

  lemma DigitsOfRun(s: string)
    requires DigitRun(s) > 0
    ensures IsDigits(s[..DigitRun(s)])
  {
    var d := DigitRun(s);
    assert forall i :: 0 <= i < d ==> s[..d][i] == s[i];
  }

  lemma BlanksOfRun(s: string)
    requires BlankRun(s) > 0
    ensures BlanksBefore(s[..BlankRun(s)], s[BlankRun(s)..])
  {
    var w := BlankRun(s);
    assert forall i :: 0 <= i < w ==> s[..w][i] == s[i];
    assert s[w..] != [] ==> s[w..][0] == s[w];
  }

  lemma AfterPrefixHasShape(rest: string, numberOf: string -> Option<real>)
    requires AfterPrefix(rest, numberOf).Some?
    ensures exists digits, blanks, tail :: RestShape(rest, digits, blanks, tail) && AfterPrefix(rest, numberOf) == numberOf(tail)
  {
    var d := DigitRun(rest);
    var after := rest[d + 1..];
    var w := BlankRun(after);
    var digits, blanks, tail := rest[..d], after[..w], after[w..];
    DigitsOfRun(rest);
    BlanksOfRun(after);
    assert after == blanks + tail;
    assert rest[d..] == ":" + after;
    assert rest == digits + rest[d..];
    assert RestShape(rest, digits, blanks, tail);
  }

  /** Every line of the pattern's shape reports the number its text after the blanks reads as. */
  lemma QValueOfShape(digits: string, blanks: string, tail: string, numberOf: string -> Option<real>)
    requires IsDigits(digits) && BlanksBefore(blanks, tail)
    ensures QValue(Q_PREFIX + (digits + (":" + (blanks + tail))), numberOf) == numberOf(tail)
  {
    var rest := digits + (":" + (blanks + tail));
    var line := Q_PREFIX + rest;
    assert line[..|Q_PREFIX|] == Q_PREFIX;
    assert line[|Q_PREFIX|..] == rest;
    AfterPrefixOfShape(digits, blanks, tail, numberOf);
  }

  /** Every line that reports a value has the pattern's shape, and the value is read from its number's text. */
  lemma QValueHasShape(line: string, numberOf: string -> Option<real>)
    requires QValue(line, numberOf).Some?
    ensures exists digits, blanks, tail :: QShape(line, digits, blanks, tail) && QValue(line, numberOf) == numberOf(tail)
  {
    AfterPrefixHasShape(line[|Q_PREFIX|..], numberOf);
    var digits, blanks, tail :| RestShape(line[|Q_PREFIX|..], digits, blanks, tail)
      && AfterPrefix(line[|Q_PREFIX|..], numberOf) == numberOf(tail);
    assert QShape(line, digits, blanks, tail);
  }

  /** The marker line is never a Q-value line. */
  lemma MarkerIsNoQValue(numberOf: string -> Option<real>)
    ensures QValue(EPISODE_MARKER, numberOf) == None
  {
    assert |EPISODE_MARKER| < |Q_PREFIX|;
  }

  /** The running maximum after q: replaced only by a strictly greater value; None is minus infinity. */
  function Raised(current: Option<real>, q: real): (r: Option<real>)
    ensures r.Some? && (r.value == q || r == current)
    ensures current.Some? ==> r.value >= current.value
    ensures r.value >= q
  {
    if current.None? || q > current.value then Some(q) else current
  }

  /** The largest of a run of values, None for none. */
  function MaxOf(qs: seq<real>): (r: Option<real>)
    ensures r.None? <==> qs == []
    ensures r.Some? ==> r.value in qs && forall k :: 0 <= k < |qs| ==> qs[k] <= r.value
  {
    if qs == [] then None else Raised(MaxOf(qs[..|qs| - 1]), qs[|qs| - 1])
  }

  /** What the loop carries: the episodes stored, the markers seen, the running maximum. */
  datatype Scan = Scan(episodes: map<int, Option<real>>, episodeNum: nat, currentMax: Option<real>)

  /** One line of the loop: a Q-value line may raise the maximum; a marker stores it and resets it. */
  function Step(st: Scan, line: string, numberOf: string -> Option<real>): Scan
  {
    var stripped := PyStrip(line);
    var current := match QValue(stripped, numberOf)
      case Some(q) => Raised(st.currentMax, q)
      case None => st.currentMax;
    if stripped == EPISODE_MARKER then Scan(st.episodes[st.episodeNum + 1 := current], st.episodeNum + 1, None)
    else st.(currentMax := current)
  }

  /** The loop's state after the given lines. */
  function ScanLog(lines: seq<string>, numberOf: string -> Option<real>): Scan
  {
    if lines == [] then Scan(map[], 0, None)
    else Step(ScanLog(lines[..|lines| - 1], numberOf), lines[|lines| - 1], numberOf)
  }

  /** parse_client_logs_for_max_q. */
  method ParseClientLogsForMaxQ(lines: seq<string>, numberOf: string -> Option<real>) returns (episodes: map<int, Option<real>>)
    ensures episodes == ScanLog(lines, numberOf).episodes
  {
    episodes := map[];
    var currentMax: Option<real> := None;
    var episodeNum: nat := 0;
    var i := 0;
    while i < |lines|
      invariant 0 <= i <= |lines|
      invariant Scan(episodes, episodeNum, currentMax) == ScanLog(lines[..i], numberOf)
    {
      assert lines[..i + 1][..i] == lines[..i];
      ghost var before := Scan(episodes, episodeNum, currentMax);
      assert ScanLog(lines[..i + 1], numberOf) == Step(before, lines[i], numberOf);
      var stripped := PyStrip(lines[i]);
      var match_ := QValue(stripped, numberOf);
      if match_.Some? {
        var qValue := match_.value;
        if currentMax.None? || qValue > currentMax.value {
          currentMax := Some(qValue);
        }
      }
      if stripped == EPISODE_MARKER {
        episodeNum := episodeNum + 1;
        episodes := episodes[episodeNum := currentMax];
        currentMax := None;
      }
      assert Scan(episodes, episodeNum, currentMax) == Step(before, lines[i], numberOf);
      i := i + 1;
    }
    assert lines[..i] == lines;
  }

  /** The number of marker lines. */
  function MarkerCount(lines: seq<string>): nat
  {
    if lines == [] then 0 else MarkerCount(lines[..|lines| - 1]) + (if IsMarker(lines[|lines| - 1]) then 1 else 0)
  }

  /** With k marker lines the episodes are numbered exactly 1 .. k. */
  lemma {:induction false} EpisodeKeys(lines: seq<string>, numberOf: string -> Option<real>)
    ensures ScanLog(lines, numberOf).episodeNum == MarkerCount(lines)
    ensures forall k :: k in ScanLog(lines, numberOf).episodes <==> 1 <= k <= MarkerCount(lines)
  {
    if lines != [] {
      EpisodeKeys(lines[..|lines| - 1], numberOf);
    }
  }

  /** The Q-values logged since the last marker line. */
  function SinceMarker(lines: seq<string>, numberOf: string -> Option<real>): seq<real>
  {
    if lines == [] then []
    else if IsMarker(lines[|lines| - 1]) then []
    else
      var q := QValue(PyStrip(lines[|lines| - 1]), numberOf);
      SinceMarker(lines[..|lines| - 1], numberOf) + (if q.Some? then [q.value] else [])
  }

  /** The running maximum is the largest Q-value since the last marker, None when there is none. */
  lemma {:induction false} RunningMax(lines: seq<string>, numberOf: string -> Option<real>)
    ensures ScanLog(lines, numberOf).currentMax == MaxOf(SinceMarker(lines, numberOf))
  {
    if lines != [] {
      var init, last := lines[..|lines| - 1], lines[|lines| - 1];
      RunningMax(init, numberOf);
      var st := ScanLog(init, numberOf);
      assert ScanLog(lines, numberOf) == Step(st, last, numberOf);
      if !IsMarker(last) {
        var q := QValue(PyStrip(last), numberOf);
        var s := SinceMarker(init, numberOf);
        if q.Some? {
          assert SinceMarker(lines, numberOf) == s + [q.value];
          assert (s + [q.value])[..|s|] == s;
          assert MaxOf(s + [q.value]) == Raised(MaxOf(s), q.value);
        } else {
          assert SinceMarker(lines, numberOf) == s + [];
          assert s + [] == s;
        }
      }
    }
  }

  /** Each marker stores the largest Q-value logged since the previous one, or None. */
  lemma EpisodeValue(lines: seq<string>, marker: string, numberOf: string -> Option<real>)
    requires IsMarker(marker)
    ensures MarkerCount(lines) + 1 in ScanLog(lines + [marker], numberOf).episodes
    ensures ScanLog(lines + [marker], numberOf).episodes[MarkerCount(lines) + 1] == MaxOf(SinceMarker(lines, numberOf))
  {
    var st := ScanLog(lines, numberOf);
    EpisodeCount(lines, numberOf);
    RunningMax(lines, numberOf);
    StepAtMarker(st, marker, numberOf);
    var after := Step(st, marker, numberOf);
    assert st.episodeNum + 1 in after.episodes && after.episodes[st.episodeNum + 1] == st.currentMax;
    ScanLogAppend(lines, marker, numberOf);
  }

  /** The loop's state after one more line is one Step from the state before it. */
  lemma ScanLogAppend(lines: seq<string>, line: string, numberOf: string -> Option<real>)
    ensures ScanLog(lines + [line], numberOf) == Step(ScanLog(lines, numberOf), line, numberOf)
  {
    assert (lines + [line])[..|lines|] == lines;
  }

  /** The episode counter counts the marker lines. */
  lemma {:induction false} EpisodeCount(lines: seq<string>, numberOf: string -> Option<real>)
    ensures ScanLog(lines, numberOf).episodeNum == MarkerCount(lines)
  {
    if lines != [] {
      EpisodeCount(lines[..|lines| - 1], numberOf);
    }
  }

  /** At a marker line the running maximum is stored under the next number and reset. */
  lemma StepAtMarker(st: Scan, marker: string, numberOf: string -> Option<real>)
    requires IsMarker(marker)
    ensures Step(st, marker, numberOf) == Scan(st.episodes[st.episodeNum + 1 := st.currentMax], st.episodeNum + 1, None)
  {
    MarkerIsNoQValue(numberOf);
  }

  /** Q-value lines after the last marker change no stored episode. */
  lemma {:induction false} TrailingLinesDropped(lines: seq<string>, tail: seq<string>, numberOf: string -> Option<real>)
    requires forall k :: 0 <= k < |tail| ==> !IsMarker(tail[k])
    ensures ScanLog(lines + tail, numberOf).episodes == ScanLog(lines, numberOf).episodes
  {
    if tail == [] {
      assert lines + tail == lines;
    } else {
      var init := tail[..|tail| - 1];
      TrailingLinesDropped(lines, init, numberOf);
      assert (lines + tail)[..|lines + tail| - 1] == lines + init;
      assert (lines + tail)[|lines + tail| - 1] == tail[|tail| - 1];
    }
  }

  /** One CSV row: the header, or one episode's result. */
  datatype MaxQRow = MaxQHeader | MaxQData(run: int, episode: int, maxQ: Option<real>)

  /** Each data row carries the run number and the value stored for its episode. */
  predicate Written(data: seq<MaxQRow>, runNumber: int, episodes: map<int, Option<real>>)
  {
    forall k :: 0 <= k < |data| ==>
      data[k].MaxQData? && data[k].run == runNumber && data[k].episode in episodes && data[k].maxQ == episodes[data[k].episode]
  }

  predicate InEpisodeOrder(data: seq<MaxQRow>)
  {
    forall k, l :: 0 <= k < l < |data| ==> data[k].MaxQData? && data[l].MaxQData? && data[k].episode < data[l].episode
  }

  predicate CoversEpisodes(data: seq<MaxQRow>, runNumber: int, episodes: map<int, Option<real>>)
  {
    forall ep :: ep in episodes ==> exists k :: 0 <= k < |data| && data[k] == MaxQData(runNumber, ep, episodes[ep])
  }

  /**
   * append_max_q_to_csv: the header when the file is missing or empty, then one row per
   * episode in increasing order, with the run number first.
   */
  method AppendMaxQToCsv(episodes: map<int, Option<real>>, runNumber: int, fileEmpty: bool) returns (rows: seq<MaxQRow>)
    ensures var off := if fileEmpty then 1 else 0;
      && |rows| >= off && rows[..off] == (if fileEmpty then [MaxQHeader] else [])
      && Written(rows[off..], runNumber, episodes)
      && InEpisodeOrder(rows[off..])
      && CoversEpisodes(rows[off..], runNumber, episodes)
  {
    var keys := SortedKeys(episodes.Keys);
    var data: seq<MaxQRow> := [];
    var n := 0;
    while n < |keys|
      invariant 0 <= n <= |keys| && |data| == n
      invariant forall k :: 0 <= k < n ==> keys[k] in episodes && data[k] == MaxQData(runNumber, keys[k], episodes[keys[k]])
    {
      assert keys[n] in keys;
      data := data + [MaxQData(runNumber, keys[n], episodes[keys[n]])];
      n := n + 1;
    }
    assert Written(data, runNumber, episodes);
    assert InEpisodeOrder(data);
    forall ep | ep in episodes
      ensures exists k :: 0 <= k < |data| && data[k] == MaxQData(runNumber, ep, episodes[ep])
    {
      var j :| 0 <= j < |keys| && keys[j] == ep;
      assert data[j] == MaxQData(runNumber, ep, episodes[ep]);
    }
    var header := if fileEmpty then [MaxQHeader] else [];
    rows := header + data;
    assert rows[|header|..] == data;
    assert rows[..|header|] == header;
  }

  /**
   * get_next_run_number: one more than the largest run number in the first column; 1 when
   * the file is missing, holds none, or cannot be read.
   */
  method GetNextRunNumber(file: Option<Result<seq<seq<string>>>>) returns (r: int)
    ensures file.None? || file.value.Err? ==> r == 1
    ensures file.Some? && file.value.Ok? ==>
      var rows := file.value.value;
      && r >= 1
      && (forall k :: 0 <= k < |rows| && HasRunNumber(rows[k]) ==> RunNumberOf(rows[k]) < r)
      && (r == 1 || exists k :: 0 <= k < |rows| && HasRunNumber(rows[k]) && RunNumberOf(rows[k]) == r - 1)
  {
    r := 1;
    if file.Some? {
      if file.value.Err? {
        return 1;
      }
      var maxRun := HighestRun(file.value.value);
      r := maxRun + 1;
    }
  }
}
