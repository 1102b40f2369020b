/**
 * The consistency check between a client log and a server log (system_assessment.py): each
 * log is scanned for its end-of-episode blocks, the two sets of episodes are joined on the
 * episode number into CSV rows flagging disagreements, and the next run number is read from
 * the CSV. A log is its list of lines and the CSV its list of rows; reading the reward number
 * (a regular expression and float()) is the parameter `rewardOf`, given the stripped line.
 */
module Assessment {
  import opened Wrappers
  import opened Text
  import opened LogText

  const CLIENT_MARKER: string := "=== End of Episode Summary ==="
  const SERVER_HEADER: string := "End of episode summary:"
  const STEPS_LABEL: string := "Steps Taken:"

  /** Steps and reward of one episode, either possibly missing. */
  type Entry = (Option<nat>, Option<real>)
  type Episodes = map<int, Entry>

  /** The client's steps line: "Steps Taken:", at least one blank, the digits, then "/". */
  function ClientSteps(line: string): (r: Option<nat>)
    ensures r.Some? ==> StartsWith(line, STEPS_LABEL)
  {
    if !StartsWith(line, STEPS_LABEL) then None
    else
      var rest := line[|STEPS_LABEL|..];
      var w := BlankRun(rest);
      var t := rest[w..];
      var d := DigitRun(t);
      if w == 0 || d == 0 || d == |t| || t[d] != '/' then None
      else Some(DigitsValue(t[..d]))
  }

  /**
   * The server's steps line: the leftmost "Steps Taken:" followed by optional blanks and at
   * least one digit, anywhere in the line.
   */
  function ServerSteps(line: string): (r: Option<nat>)
    ensures r.Some? ==> Contains(line, STEPS_LABEL)
  {
    if |line| < |STEPS_LABEL| then None
    else if StartsWith(line, STEPS_LABEL) && DigitRun(line[|STEPS_LABEL|..][BlankRun(line[|STEPS_LABEL|..])..]) > 0 then
      var rest := line[|STEPS_LABEL|..];
      var t := rest[BlankRun(rest)..];
      Some(DigitsValue(t[..DigitRun(t)]))
    else ServerSteps(line[1..])
  }

  lemma ClientStepsExample()
    ensures ClientSteps("Steps Taken: 20/30") == Some(20)
  {
    var c := "Steps Taken: 20/30";
    assert c[..|STEPS_LABEL|] == STEPS_LABEL;
    assert c[|STEPS_LABEL|..] == " 20/30";
    assert BlankRun("20/30") == 0;
    assert BlankRun(" 20/30") == 1;
    assert " 20/30"[1..] == "20/30";
    assert DigitRun("/30") == 0;
    assert DigitRun("0/30") == 1;
    assert DigitRun("20/30") == 2;
    assert "20/30"[2] == '/';
    assert "20/30"[..2] == "20";
    assert "20"[..1] == "2";
    assert "2"[..0] == "";
    assert DigitsValue("20") == 20;
  }

  /** The client's pattern wants a blank after the colon. */
  lemma ClientStepsNeedBlank()
    ensures ClientSteps("Steps Taken:20/30") == None
  {
    var n := "Steps Taken:20/30";
    assert n[..|STEPS_LABEL|] == STEPS_LABEL;
    assert n[|STEPS_LABEL|..] == "20/30";
    assert BlankRun("20/30") == 0;
  }

  /** The server's pattern is found anywhere in the line. */
  lemma ServerStepsExample()
    ensures ServerSteps("- Steps Taken: 26") == Some(26)
  {
    var s := "- Steps Taken: 26";
    assert s[..|STEPS_LABEL|][0] == '-';
    assert s[1..] == " Steps Taken: 26";
    assert s[1..][..|STEPS_LABEL|][0] == ' ';
    var t := "Steps Taken: 26";
    assert s[1..][1..] == t;
    assert t[..|STEPS_LABEL|] == STEPS_LABEL;
    assert t[|STEPS_LABEL|..] == " 26";
    assert BlankRun("26") == 0;
    assert BlankRun(" 26") == 1;
    assert " 26"[1..] == "26";
    assert DigitRun("") == 0;
    assert DigitRun("6") == 1;
    assert DigitRun("26") == 2;
    assert "26"[..2] == "26";
    assert "26"[..1] == "2";
    assert "2"[..0] == "";
    assert DigitsValue("26") == 26;
  }

  /** The block after a client marker at i: steps from line i + 1, reward from line i + 2. */
  function ClientBlock(lines: seq<string>, rewardOf: string -> Option<real>, i: nat): Entry
    requires i + 2 < |lines|
  {
    (ClientSteps(PyStrip(lines[i + 1])), rewardOf(PyStrip(lines[i + 2])))
  }

  /**
   * parse_client_logs from line i on, with `episode` markers counted so far: every marker
   * counts; one with two lines after it stores its block under its number and skips them.
   */
  function ClientScan(lines: seq<string>, rewardOf: string -> Option<real>, i: nat, episode: nat, acc: Episodes): Episodes
    decreases |lines| - i
  {
    if i >= |lines| then acc
    else if PyStrip(lines[i]) == CLIENT_MARKER then
      if i + 2 < |lines| then ClientScan(lines, rewardOf, i + 3, episode + 1, acc[episode + 1 := ClientBlock(lines, rewardOf, i)])
      else ClientScan(lines, rewardOf, i + 1, episode + 1, acc)
    else ClientScan(lines, rewardOf, i + 1, episode, acc)
  }

  function ClientEpisodes(lines: seq<string>, rewardOf: string -> Option<real>): Episodes
  {
    ClientScan(lines, rewardOf, 0, 0, map[])
  }

  /** parse_client_logs. */
  method ParseClientLogs(lines: seq<string>, rewardOf: string -> Option<real>) returns (episodes: Episodes)
    ensures episodes == ClientEpisodes(lines, rewardOf)
  {
    episodes := map[];
    var episode: nat := 0;
    var i: nat := 0;
    while i < |lines|
      invariant i <= |lines|
      invariant ClientScan(lines, rewardOf, i, episode, episodes) == ClientEpisodes(lines, rewardOf)
      decreases |lines| - i
    {
      var line := PyStrip(lines[i]);
      if line == CLIENT_MARKER {
        episode := episode + 1;
        if i + 2 < |lines| {
          var stepsLine := PyStrip(lines[i + 1]);
          var rewardLine := PyStrip(lines[i + 2]);
          var clientSteps := ClientSteps(stepsLine);
          var clientReward := rewardOf(rewardLine);
          episodes := episodes[episode := (clientSteps, clientReward)];
          i := i + 2;
        }
      }
      i := i + 1;
    }
  }

  /**
   * The scan only adds keys above the markers counted so far, and keeps the entries stored
   * under earlier numbers.
   */
  lemma {:induction false} ClientScanKeys(lines: seq<string>, rewardOf: string -> Option<real>, i: nat, episode: nat, acc: Episodes)
    ensures forall k :: k in ClientScan(lines, rewardOf, i, episode, acc) ==> k in acc || episode < k
    ensures forall k :: k in acc && k <= episode ==> k in ClientScan(lines, rewardOf, i, episode, acc) && ClientScan(lines, rewardOf, i, episode, acc)[k] == acc[k]
    decreases |lines| - i
  {
    if i < |lines| {
      if PyStrip(lines[i]) == CLIENT_MARKER {
        if i + 2 < |lines| {
          ClientScanKeys(lines, rewardOf, i + 3, episode + 1, acc[episode + 1 := ClientBlock(lines, rewardOf, i)]);
        } else {
          ClientScanKeys(lines, rewardOf, i + 1, episode + 1, acc);
        }
      } else {
        ClientScanKeys(lines, rewardOf, i + 1, episode, acc);
      }
    }
  }

  /** A marker with two lines after it ends up stored under its number, with the block read from those lines. */
  lemma ClientBlockRecorded(lines: seq<string>, rewardOf: string -> Option<real>, i: nat, episode: nat, acc: Episodes)
    requires i + 2 < |lines| && PyStrip(lines[i]) == CLIENT_MARKER
    ensures episode + 1 in ClientScan(lines, rewardOf, i, episode, acc)
    ensures ClientScan(lines, rewardOf, i, episode, acc)[episode + 1] == ClientBlock(lines, rewardOf, i)
  {
    ClientScanKeys(lines, rewardOf, i + 3, episode + 1, acc[episode + 1 := ClientBlock(lines, rewardOf, i)]);
  }

  /** Every key of the client's episodes is a positive marker number. */
  lemma ClientKeysPositive(lines: seq<string>, rewardOf: string -> Option<real>)
    ensures forall k :: k in ClientEpisodes(lines, rewardOf) ==> k >= 1
  {
    ClientScanKeys(lines, rewardOf, 0, 0, map[]);
  }

  /** The marker line has no blanks to strip. */
  lemma MarkerStripped()
    ensures PyStrip(CLIENT_MARKER) == CLIENT_MARKER
  {
    assert !PyBlank(CLIENT_MARKER[0]);
    assert PyStripLeading(CLIENT_MARKER) == CLIENT_MARKER;
    assert !PyBlank(CLIENT_MARKER[|CLIENT_MARKER| - 1]);
  }

  /** A marker on the last line is counted but stores nothing. */
  lemma MarkerAtEndUnrecorded(rewardOf: string -> Option<real>)
    ensures ClientEpisodes([CLIENT_MARKER], rewardOf) == map[]
  {
    MarkerStripped();
    var lines := [CLIENT_MARKER];
    assert ClientScan(lines, rewardOf, 0, 0, map[]) == ClientScan(lines, rewardOf, 1, 1, map[]);
  }

  /** Markers on the two lines consumed after a marker are never counted. */
  lemma ConsumedMarkersUncounted(rewardOf: string -> Option<real>)
    ensures ClientEpisodes([CLIENT_MARKER, CLIENT_MARKER, CLIENT_MARKER], rewardOf) == map[1 := (None, rewardOf(CLIENT_MARKER))]
  {
    MarkerStripped();
    assert ClientSteps(CLIENT_MARKER) == None by {
      assert CLIENT_MARKER[..|STEPS_LABEL|][0] != STEPS_LABEL[0];
    }
    var lines := [CLIENT_MARKER, CLIENT_MARKER, CLIENT_MARKER];
    assert ClientBlock(lines, rewardOf, 0) == (None, rewardOf(CLIENT_MARKER));
    assert ClientScan(lines, rewardOf, 0, 0, map[]) == ClientScan(lines, rewardOf, 3, 1, map[1 := (None, rewardOf(CLIENT_MARKER))]);
  }

  /** Python's re.search('error', line, re.IGNORECASE), for ASCII text. */
  predicate HasError(line: string)
  {
    Contains(ToLower(line), "error")
  }

  /** The number of lines mentioning "error" in any case. */
  function ErrorCount(lines: seq<string>): (n: nat)
    ensures n <= |lines|
  {
    if lines == [] then 0 else ErrorCount(lines[..|lines| - 1]) + (if HasError(lines[|lines| - 1]) then 1 else 0)
  }

  /** Counting errors over two logs laid end to end adds the counts. */
  lemma {:induction false} ErrorCountAppend(a: seq<string>, b: seq<string>)
    ensures ErrorCount(a + b) == ErrorCount(a) + ErrorCount(b)
    decreases |b|
  {
    if b != [] {
      var init := b[..|b| - 1];
      ErrorCountAppend(a, init);
      assert (a + b)[..|a + b| - 1] == a + init;
      assert (a + b)[|a + b| - 1] == b[|b| - 1];
    } else {
      assert a + b == a;
    }
  }

  /** The block after a server header at i: steps from line i + 3, reward from line i + 4. */
  function ServerBlock(lines: seq<string>, rewardOf: string -> Option<real>, i: nat): Entry
    requires i + 4 < |lines|
  {
    (ServerSteps(PyStrip(lines[i + 3])), rewardOf(PyStrip(lines[i + 4])))
  }

  /**
   * parse_server_logs' episode scan from line i on: a line containing the header counts and
   * the scan moves five lines on; the block is stored only when its reward line exists.
   */
  function ServerScan(lines: seq<string>, rewardOf: string -> Option<real>, i: nat, episode: nat, acc: Episodes): Episodes
    decreases |lines| - i
  {
    if i >= |lines| then acc
    else if Contains(PyStrip(lines[i]), SERVER_HEADER) then
      ServerScan(lines, rewardOf, i + 5, episode + 1, if i + 4 < |lines| then acc[episode + 1 := ServerBlock(lines, rewardOf, i)] else acc)
    else ServerScan(lines, rewardOf, i + 1, episode, acc)
  }

  function ServerEpisodes(lines: seq<string>, rewardOf: string -> Option<real>): Episodes
  {
    ServerScan(lines, rewardOf, 0, 0, map[])
  }

  /** parse_server_logs: the episodes and the number of error lines. */
  method ParseServerLogs(lines: seq<string>, rewardOf: string -> Option<real>) returns (episodes: Episodes, errorCount: nat)
    ensures episodes == ServerEpisodes(lines, rewardOf)
    ensures errorCount == ErrorCount(lines)
  {
    errorCount := 0;
    var n := 0;
    while n < |lines|
      invariant 0 <= n <= |lines|
      invariant errorCount == ErrorCount(lines[..n])
    {
      assert lines[..n + 1][..n] == lines[..n];
      if HasError(lines[n]) {
        errorCount := errorCount + 1;
      }
      n := n + 1;
    }
    assert lines[..n] == lines;
    episodes := map[];
    var episode: nat := 0;
    var i: nat := 0;
    while i < |lines|
      invariant ServerScan(lines, rewardOf, i, episode, episodes) == ServerEpisodes(lines, rewardOf)
      decreases |lines| - i
    {
      var line := PyStrip(lines[i]);
      if Contains(line, SERVER_HEADER) {
        episode := episode + 1;
        if i + 4 < |lines| {
          var stepsLine := PyStrip(lines[i + 3]);
          var rewardLine := PyStrip(lines[i + 4]);
          var serverSteps := ServerSteps(stepsLine);
          var serverReward := rewardOf(rewardLine);
          episodes := episodes[episode := (serverSteps, serverReward)];
        }
        i := i + 5;
      } else {
        i := i + 1;
      }
    }
  }

  lemma {:induction false} ServerScanKeys(lines: seq<string>, rewardOf: string -> Option<real>, i: nat, episode: nat, acc: Episodes)
    ensures forall k :: k in ServerScan(lines, rewardOf, i, episode, acc) ==> k in acc || episode < k
    ensures forall k :: k in acc && k <= episode ==> k in ServerScan(lines, rewardOf, i, episode, acc) && ServerScan(lines, rewardOf, i, episode, acc)[k] == acc[k]
    decreases |lines| - i
  {
    if i < |lines| {
      if Contains(PyStrip(lines[i]), SERVER_HEADER) {
        ServerScanKeys(lines, rewardOf, i + 5, episode + 1, if i + 4 < |lines| then acc[episode + 1 := ServerBlock(lines, rewardOf, i)] else acc);
      } else {
        ServerScanKeys(lines, rewardOf, i + 1, episode, acc);
      }
    }
  }

  /** A header with four lines after it ends up stored under its number, read from lines i + 3 and i + 4. */
  lemma ServerBlockRecorded(lines: seq<string>, rewardOf: string -> Option<real>, i: nat, episode: nat, acc: Episodes)
    requires i + 4 < |lines| && Contains(PyStrip(lines[i]), SERVER_HEADER)
    ensures episode + 1 in ServerScan(lines, rewardOf, i, episode, acc)
    ensures ServerScan(lines, rewardOf, i, episode, acc)[episode + 1] == ServerBlock(lines, rewardOf, i)
  {
    ServerScanKeys(lines, rewardOf, i + 5, episode + 1, acc[episode + 1 := ServerBlock(lines, rewardOf, i)]);
  }

  /** One CSV row: the header, or an episode's comparison. */
  datatype CsvRow =
    | HeaderRow
    | DataRow(run: int, episode: int, clientSteps: Option<nat>, serverSteps: Option<nat>, stepsMismatch: int,
              clientReward: Option<real>, serverReward: Option<real>, rewardMismatch: int, serverErrorCount: string)

  /** Rewards further apart than this disagree. */
  const Tolerance: real := 0.000000001

  function Abs(x: real): real
  {
    if x < 0.0 then -x else x
  }

  /** dict.get(ep, (None, None)). */
  function Lookup(eps: Episodes, ep: int): Entry
  {
    if ep in eps then eps[ep] else (None, None)
  }

  /**
   * The row for one episode: the steps agree only when both sides have them and they are
   * equal, the rewards only when both sides have them within the tolerance; the error-count
   * column stays empty.
   */
  function Compared(run: int, ep: int, client: Entry, server: Entry): (row: CsvRow)
    ensures row.DataRow? && row.run == run && row.episode == ep
    ensures row.clientSteps == client.0 && row.serverSteps == server.0
    ensures row.clientReward == client.1 && row.serverReward == server.1
    ensures row.stepsMismatch in {0, 1} && row.rewardMismatch in {0, 1}
    ensures row.stepsMismatch == 0 <==> client.0.Some? && server.0.Some? && client.0.value == server.0.value
    ensures row.rewardMismatch == 0 <==> client.1.Some? && server.1.Some? && Abs(client.1.value - server.1.value) <= Tolerance
    ensures row.serverErrorCount == ""
  {
    var stepsMismatch := if client.0.None? || server.0.None? || client.0.value != server.0.value then 1 else 0;
    var rewardMismatch := if client.1.None? || server.1.None? || Abs(client.1.value - server.1.value) > Tolerance then 1 else 0;
    DataRow(run, ep, client.0, server.0, stepsMismatch, client.1, server.1, rewardMismatch, "")
  }

  /** The number of data rows flagging a steps mismatch, and a reward mismatch. */
  function StepMismatches(rows: seq<CsvRow>): nat
  {
    if rows == [] then 0
    else StepMismatches(rows[..|rows| - 1]) + (if rows[|rows| - 1].DataRow? && rows[|rows| - 1].stepsMismatch == 1 then 1 else 0)
  }

  function RewardMismatches(rows: seq<CsvRow>): nat
  {
    if rows == [] then 0
    else RewardMismatches(rows[..|rows| - 1]) + (if rows[|rows| - 1].DataRow? && rows[|rows| - 1].rewardMismatch == 1 then 1 else 0)
  }

  /** Where the data rows start: after the header when one is written. */
  function Offset(fileEmpty: bool): nat
  {
    if fileEmpty then 1 else 0
  }

  predicate AllData(data: seq<CsvRow>)
  {
    forall k :: 0 <= k < |data| ==> data[k].DataRow?
  }

  /** The Episode column. */
  function EpisodeColumn(data: seq<CsvRow>): (eps: seq<int>)
    requires AllData(data)
    ensures |eps| == |data| && forall k :: 0 <= k < |data| ==> eps[k] == data[k].episode
  {
    seq(|data|, k requires 0 <= k < |data| => data[k].episode)
  }

  /** Each data row is the comparison of what the two sides have for its episode. */
  predicate Joined(data: seq<CsvRow>, run: int, clientEps: Episodes, serverEps: Episodes)
    requires AllData(data)
  {
    forall k :: 0 <= k < |data| ==> data[k] == Compared(run, data[k].episode, Lookup(clientEps, data[k].episode), Lookup(serverEps, data[k].episode))
  }

  predicate StrictlyIncreasing(eps: seq<int>)
  {
    forall k, l :: 0 <= k < l < |eps| ==> eps[k] < eps[l]
  }

  /**
   * compare_episodes_and_write_csv: the header row when the CSV is empty, then one row per
   * episode number of either side, in increasing order, with running mismatch totals. The
   * error count is accepted and not written.
   */
  method CompareEpisodes(clientEps: Episodes, serverEps: Episodes, errorCount: nat, runNumber: int, fileEmpty: bool)
    returns (rows: seq<CsvRow>, totalStepMismatches: nat, totalRewardMismatches: nat)
    ensures |rows| >= Offset(fileEmpty) && rows[..Offset(fileEmpty)] == (if fileEmpty then [HeaderRow] else [])
    ensures AllData(rows[Offset(fileEmpty)..])
    ensures Joined(rows[Offset(fileEmpty)..], runNumber, clientEps, serverEps)
    ensures StrictlyIncreasing(EpisodeColumn(rows[Offset(fileEmpty)..]))
    ensures forall ep :: ep in EpisodeColumn(rows[Offset(fileEmpty)..]) <==> ep in clientEps || ep in serverEps
    ensures totalStepMismatches == StepMismatches(rows[Offset(fileEmpty)..])
    ensures totalRewardMismatches == RewardMismatches(rows[Offset(fileEmpty)..])
  {
    var allEpisodes := SortedKeys(clientEps.Keys + serverEps.Keys);
    var header := if fileEmpty then [HeaderRow] else [];
    var data;
    data, totalStepMismatches, totalRewardMismatches := CompareRows(allEpisodes, clientEps, serverEps, runNumber);
    assert EpisodeColumn(data) == allEpisodes;
    rows := header + data;
    assert rows[Offset(fileEmpty)..] == data;
    assert rows[..Offset(fileEmpty)] == header;
  }

  /** compare_episodes_and_write_csv's loop: one compared row per episode, mismatches counted. */
  method CompareRows(allEpisodes: seq<int>, clientEps: Episodes, serverEps: Episodes, runNumber: int)
    returns (data: seq<CsvRow>, totalStepMismatches: nat, totalRewardMismatches: nat)
    ensures |data| == |allEpisodes|
    ensures forall k :: 0 <= k < |data| ==>
      data[k] == Compared(runNumber, allEpisodes[k], Lookup(clientEps, allEpisodes[k]), Lookup(serverEps, allEpisodes[k]))
    ensures totalStepMismatches == StepMismatches(data) && totalRewardMismatches == RewardMismatches(data)
  {
    totalStepMismatches, totalRewardMismatches := 0, 0;
    data := [];
    var n := 0;
    while n < |allEpisodes|
      invariant 0 <= n <= |allEpisodes| && |data| == n
      invariant forall k :: 0 <= k < n ==> data[k] == Compared(runNumber, allEpisodes[k], Lookup(clientEps, allEpisodes[k]), Lookup(serverEps, allEpisodes[k]))
      invariant totalStepMismatches == StepMismatches(data) && totalRewardMismatches == RewardMismatches(data)
    {
      var ep := allEpisodes[n];
      var client := Lookup(clientEps, ep);
      var server := Lookup(serverEps, ep);
      var row := Compared(runNumber, ep, client, server);
      if row.stepsMismatch == 1 {
        totalStepMismatches := totalStepMismatches + 1;
      }
      if row.rewardMismatch == 1 {
        totalRewardMismatches := totalRewardMismatches + 1;
      }
      assert (data + [row])[..|data|] == data;
      data := data + [row];
      n := n + 1;
    }
  }

  /**
   * get_next_run_number: one more than the largest run number in the CSV's first column, 1
   * when the file is absent or has none; a file that cannot be read raises.
   */
  method GetNextRunNumber(file: Option<Result<seq<seq<string>>>>) returns (r: Result<int>)
    ensures file.None? ==> r == Ok(1)
    ensures file.Some? && file.value.Err? ==> r == Err(file.value.fault)
    ensures file.Some? && file.value.Ok? ==>
      var rows := file.value.value;
      && r.Ok? && r.value >= 1
      && (forall k :: 0 <= k < |rows| && HasRunNumber(rows[k]) ==> RunNumberOf(rows[k]) < r.value)
      && (r.value == 1 || exists k :: 0 <= k < |rows| && HasRunNumber(rows[k]) && RunNumberOf(rows[k]) == r.value - 1)
  {
    var runNumber := 1;
    if file.Some? {
      if file.value.Err? {
        return Err(file.value.fault);
      }
      var maxRun := HighestRun(file.value.value);
      runNumber := maxRun + 1;
    }
    return Ok(runNumber);
  }
}
