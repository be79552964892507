/**
 * The process tools of the system-information server: `get_top_processes`,
 * `find_process`, `list_processes` and `get_process_details`, over the
 * process table already read by sysinfo (in its enumeration order).
 */
module Processes {
  import opened Base
  import opened Text
  import opened Duration
  import opened Sorting

  /**
   * One process. `cpu` stands for the f32 usage as an abstract ordered key;
   * `status` is the `{:?}` text of the process status.
   */
  datatype Process = Process(
    pid: nat, name: string, cpu: int, memory: nat, virtualMemory: nat, status: string,
    parent: Option<nat>, runTime: nat, exe: Option<string>, cwd: Option<string>, cmd: seq<string>)

  datatype SortKey = ByCpu | ByMemory

  function CpuOf(p: Process): int {
    p.cpu
  }

  function MemoryOf(p: Process): int {
    p.memory
  }

  function KeyFunction(k: SortKey): Process -> int {
    match k
    case ByCpu => CpuOf
    case ByMemory => MemoryOf
  }

  /** `"memory"` and `"mem"` sort by memory; every other text, including the default `"cpu"`, sorts by CPU. */
  function SortKeyOf(sortBy: string): (k: SortKey)
    ensures k == ByMemory <==> sortBy == "memory" || sortBy == "mem"
  {
    if sortBy == "memory" || sortBy == "mem" then ByMemory else ByCpu
  }

  /** One pushed line of a process report; table rows carry the process shown. */
  datatype ProcessLine =
    | TopTitle(count: nat, sortBy: string)
    | FindTitle(search: string)
    | ListTitle
    | TableHeader
    | Rule(width: nat)
    | Row(process: Process)
    | NoMatches
    | MoreMatches(more: nat)
    | MoreProcesses(more: nat)
    | TotalMatches(total: nat)
    | TotalProcesses(total: nat)

  /** The rows for the given processes, in order. */
  function Rows(ps: seq<Process>): (r: seq<ProcessLine>)
    ensures |r| == |ps|
  {
    if |ps| == 0 then [] else Rows(ps[..|ps| - 1]) + [Row(ps[|ps| - 1])]
  }

  /** The loop shared by the three listings: one row for each of the first `cap` processes. */
  method AppendRows(lines: seq<ProcessLine>, ps: seq<Process>, cap: nat) returns (out: seq<ProcessLine>)
    ensures out == lines + Rows(ps[..Min(cap, |ps|)])
  {
    out := lines;
    var shown := if cap < |ps| then cap else |ps|;
    for i := 0 to shown
      invariant out == lines + Rows(ps[..i])
    {
      assert ps[..i + 1][..i] == ps[..i];
      out := out + [Row(ps[i])];
    }
  }

  // ---- get_top_processes ----

  /** The processes in the order `get_top_processes` lists them. */
  function TopOrder(procs: seq<Process>, sortBy: string): seq<Process> {
    SortDesc(procs, KeyFunction(SortKeyOf(sortBy)))
  }

  /**
   * `get_top_processes`: the count defaults to 10 and the sort key to
   * `"cpu"`; the table holds the first `count` processes of the stable
   * descending sort.
   */
  method TopProcesses(procs: seq<Process>, count: Option<nat>, sortBy: Option<string>) returns (lines: seq<ProcessLine>)
    ensures var n, key := count.GetOr(10), sortBy.GetOr("cpu");
      lines == [TopTitle(n, key), TableHeader, Rule(50)] + Rows(TopOrder(procs, key)[..Min(n, |procs|)])
  {
    var n := count.GetOr(10);
    var key := sortBy.GetOr("cpu");
    var sorted := SortDesc(procs, KeyFunction(SortKeyOf(key)));
    SortDescFacts(procs, KeyFunction(SortKeyOf(key)));
    lines := [TopTitle(n, key), TableHeader, Rule(50)];
    lines := AppendRows(lines, sorted, n);
  }

  /** The top-processes table shows exactly the first min(count, number of processes) processes of the sorted order. */
  lemma TopShown(procs: seq<Process>, n: nat, sortBy: string)
    ensures var shown := TopOrder(procs, sortBy)[..Min(n, |procs|)];
      Shown([TopTitle(n, sortBy), TableHeader, Rule(50)] + Rows(shown)) == shown && |shown| == Min(n, |procs|)
  {
    var shown := TopOrder(procs, sortBy)[..Min(n, |procs|)];
    var head := [TopTitle(n, sortBy), TableHeader, Rule(50)];
    ShownNone(head);
    ShownRows(shown);
    ShownAppend(head, Rows(shown));
  }

  /**
   * The processes shown come from the process table without repetition,
   * and each ranks at least as high on the sort key as every process left out.
   */
  lemma TopProcessesSelection(procs: seq<Process>, n: nat, sortBy: string)
    ensures var order := TopOrder(procs, sortBy);
      var m := Min(n, |procs|);
      && multiset(order[..m]) <= multiset(procs)
      && forall x, y :: x in order[..m] && y in order[m..] ==>
           KeyFunction(SortKeyOf(sortBy))(x) >= KeyFunction(SortKeyOf(sortBy))(y)
  {
    var key := KeyFunction(SortKeyOf(sortBy));
    var order := TopOrder(procs, sortBy);
    var m := Min(n, |procs|);
    SortDescFacts(procs, key);
    SortedPrefix(procs, key, m);
    forall x, y | x in order[..m] && y in order[m..] ensures key(x) >= key(y) {
      PrefixDominates(order, key, m, x, y);
    }
  }

  /** Sorting by memory: processes with equal memory keep their enumeration order. */
  lemma MemorySortStable(procs: seq<Process>, sortBy: string, v: int)
    requires sortBy == "memory" || sortBy == "mem"
    ensures WithKey(TopOrder(procs, sortBy), MemoryOf, v) == WithKey(procs, MemoryOf, v)
  {
    SortDescStable(procs, MemoryOf, v);
  }

  // ---- find_process ----

  /** The filter of `find_process`: lowercased name contains the lowercased search text. */
  predicate NameMatches(p: Process, search: string) {
    Contains(ToLower(p.name), ToLower(search))
  }

  /** The matching processes, in enumeration order. */
  function Matching(procs: seq<Process>, search: string): (r: seq<Process>)
    ensures |r| <= |procs|
  {
    if |procs| == 0 then []
    else Matching(procs[..|procs| - 1], search) + (if NameMatches(procs[|procs| - 1], search) then [procs[|procs| - 1]] else [])
  }

  /** A process is kept exactly when it is in the table and its name matches. */
  lemma {:induction false} MatchingExactly(procs: seq<Process>, search: string, p: Process)
    ensures p in Matching(procs, search) <==> p in procs && NameMatches(p, search)
    ensures |Matching(procs, search)| <= |procs|
  {
    if |procs| > 0 {
      var init := procs[..|procs| - 1];
      MatchingExactly(init, search, p);
      assert procs == init + [procs[|procs| - 1]];
    }
  }

  lemma {:induction false} MatchingEmpty(procs: seq<Process>, search: string)
    ensures Matching(procs, search) == [] <==> forall i :: 0 <= i < |procs| ==> !NameMatches(procs[i], search)
  {
    if |procs| > 0 {
      var init := procs[..|procs| - 1];
      MatchingEmpty(init, search);
      if Matching(procs, search) == [] {
        forall i | 0 <= i < |procs| ensures !NameMatches(procs[i], search) {
          if i < |init| {
            assert init[i] == procs[i];
          }
        }
      }
    }
  }

  /** The lines of `find_process`: the matches sorted by CPU, at most 20 shown, with a count of the rest and the total. */
  function FindReport(procs: seq<Process>, search: string): seq<ProcessLine> {
    MatchReport(search, Matching(procs, search))
  }

  /**
   * The report for a list of matches: the title, then "none found" alone
   * when there are none; otherwise the table of at most 20 rows, the
   * remainder line when over 20, and the total last. It never exceeds 25
   * lines.
   */
  function MatchReport(search: string, matches: seq<Process>): (r: seq<ProcessLine>)
    ensures |r| >= 2 && r[0] == FindTitle(search) && |r| <= 25
    ensures |matches| == 0 ==> r == [FindTitle(search), NoMatches]
    ensures |matches| > 0 ==>
      |r| == 4 + Min(20, |matches|) + (if |matches| > 20 then 1 else 0) && r[|r| - 1] == TotalMatches(|matches|)
  {
    if |matches| == 0 then [FindTitle(search), NoMatches]
    else
      [FindTitle(search), TableHeader, Rule(50)] + Rows(SortDesc(matches, CpuOf)[..Min(20, |matches|)])
      + (if |matches| > 20 then [MoreMatches(|matches| - 20)] else []) + [TotalMatches(|matches|)]
  }

  /** `find_process`, building its report line by line. */
  method FindProcess(procs: seq<Process>, search: string) returns (lines: seq<ProcessLine>)
    ensures lines == FindReport(procs, search)
  {
    var matches := Matching(procs, search);
    var sorted := SortDesc(matches, CpuOf);
    if |matches| == 0 {
      lines := [FindTitle(search), NoMatches];
    } else {
      lines := [FindTitle(search), TableHeader, Rule(50)];
      lines := AppendRows(lines, sorted, 20);
      ghost var shown := lines;
      if |matches| > 20 {
        lines := lines + [MoreMatches(|matches| - 20)];
      }
      lines := lines + [TotalMatches(|matches|)];
      assert lines == shown + (if |matches| > 20 then [MoreMatches(|matches| - 20)] else []) + [TotalMatches(|matches|)];
    }
  }

  lemma {:induction false} RowsHoldOnlyRows(ps: seq<Process>)
    ensures forall i :: 0 <= i < |Rows(ps)| ==> Rows(ps)[i].Row?
  {
    if |ps| > 0 {
      RowsHoldOnlyRows(ps[..|ps| - 1]);
    }
  }

  /** The processes shown in the rows of a report, in order. */
  function Shown(lines: seq<ProcessLine>): seq<Process> {
    if |lines| == 0 then [] else (if lines[0].Row? then [lines[0].process] else []) + Shown(lines[1..])
  }

  lemma {:induction false} ShownAppend(a: seq<ProcessLine>, b: seq<ProcessLine>)
    ensures Shown(a + b) == Shown(a) + Shown(b)
  {
    if |a| > 0 {
      assert (a + b)[1..] == a[1..] + b;
      ShownAppend(a[1..], b);
    } else {
      assert a + b == b;
    }
  }

  lemma {:induction false} ShownRows(ps: seq<Process>)
    ensures Shown(Rows(ps)) == ps
  {
    if |ps| > 0 {
      var init := ps[..|ps| - 1];
      ShownRows(init);
      ShownAppend(Rows(init), [Row(ps[|ps| - 1])]);
      assert [Row(ps[|ps| - 1])][1..] == [];
      assert init + [ps[|ps| - 1]] == ps;
    }
  }

  lemma {:induction false} ShownNone(lines: seq<ProcessLine>)
    requires forall i :: 0 <= i < |lines| ==> !lines[i].Row?
    ensures Shown(lines) == []
  {
    if |lines| > 0 {
      ShownNone(lines[1..]);
    }
  }

  lemma ShownAfterHead(head: seq<ProcessLine>, ps: seq<Process>, more: seq<ProcessLine>)
    requires forall i :: 0 <= i < |head| ==> !head[i].Row?
    requires forall i :: 0 <= i < |more| ==> !more[i].Row?
    ensures Shown(head + Rows(ps) + more) == ps
  {
    var x := head + Rows(ps);
    ShownNone(head);
    ShownNone(more);
    ShownRows(ps);
    ShownAppend(head, Rows(ps));
    assert Shown(x) == ps;
    ShownAppend(x, more);
  }

  /** A report made of rows between lines that are not rows shows exactly the processes of those rows. */
  lemma ShownOfTable(head: seq<ProcessLine>, ps: seq<Process>, more: seq<ProcessLine>, tail: seq<ProcessLine>)
    requires forall i :: 0 <= i < |head| ==> !head[i].Row?
    requires forall i :: 0 <= i < |more| ==> !more[i].Row?
    requires forall i :: 0 <= i < |tail| ==> !tail[i].Row?
    ensures Shown(head + Rows(ps) + more + tail) == ps
  {
    ShownAfterHead(head, ps, more);
    ShownNone(tail);
    ShownAppend(head + Rows(ps) + more, tail);
  }

  /** The rows of `find_process` show the first min(20, n) matches in CPU order. */
  lemma MatchReportShown(search: string, matches: seq<Process>)
    ensures Shown(MatchReport(search, matches)) == SortDesc(matches, CpuOf)[..Min(20, |matches|)]
  {
    if matches != [] {
      MatchTableShown(search, SortDesc(matches, CpuOf));
    } else {
      ShownNone([FindTitle(search), NoMatches]);
    }
  }

  lemma MatchTableShown(search: string, sorted: seq<Process>)
    ensures var n := |sorted|;
      var more: seq<ProcessLine> := if n > 20 then [MoreMatches(n - 20)] else [];
      Shown([FindTitle(search), TableHeader, Rule(50)] + Rows(sorted[..Min(20, n)]) + more + [TotalMatches(n)])
        == sorted[..Min(20, n)]
  {
    var n := |sorted|;
    var more: seq<ProcessLine> := if n > 20 then [MoreMatches(n - 20)] else [];
    ShownOfTable([FindTitle(search), TableHeader, Rule(50)], sorted[..Min(20, n)], more, [TotalMatches(n)]);
  }

  /**
   * The rows of `find_process` show at most 20 processes, each from the
   * table and with a matching name, in descending CPU order, and no process
   * twice.
   */
  lemma FindRowsMatch(procs: seq<Process>, search: string)
    ensures var shown := Shown(FindReport(procs, search));
      && |shown| == Min(20, |Matching(procs, search)|)
      && (forall p :: p in shown ==> p in procs && NameMatches(p, search))
      && Descending(shown, CpuOf)
      && multiset(shown) <= multiset(Matching(procs, search))
  {
    var matches := Matching(procs, search);
    var shown := SortDesc(matches, CpuOf)[..Min(20, |matches|)];
    MatchReportShown(search, matches);
    SortedPrefix(matches, CpuOf, Min(20, |matches|));
    forall p | p in shown ensures p in procs && NameMatches(p, search) {
      assert p in multiset(shown);
      MatchingExactly(procs, search, p);
    }
  }

  /** The report says `No matching processes found.` exactly when no name matches. */
  lemma FindNoMatches(procs: seq<Process>, search: string)
    ensures NoMatches in FindReport(procs, search) <==> forall i :: 0 <= i < |procs| ==> !NameMatches(procs[i], search)
  {
    MatchingEmpty(procs, search);
    var matches := Matching(procs, search);
    if matches != [] {
      RowsHoldOnlyRows(SortDesc(matches, CpuOf)[..Min(20, |matches|)]);
    }
  }

  /**
   * The report has a `... and N more matches` line exactly when there are
   * more than 20 matches, with N the number not shown, and when something
   * matched it ends with the total number of matches.
   */
  lemma MatchReportCounts(search: string, matches: seq<Process>, k: nat)
    ensures var n := |matches|;
      var lines := MatchReport(search, matches);
      && (MoreMatches(k) in lines <==> n > 20 && k == n - 20)
      && (n > 0 ==> lines[|lines| - 1] == TotalMatches(n))
  {
    if matches != [] {
      RowsHoldOnlyRows(SortDesc(matches, CpuOf)[..Min(20, |matches|)]);
    }
  }

  // ---- list_processes ----

  /** `list_processes`: all processes sorted by CPU, at most 50 shown, with a count of the rest and the total. */
  method ListProcesses(procs: seq<Process>) returns (lines: seq<ProcessLine>)
    ensures var sorted := SortDesc(procs, CpuOf);
      lines == [ListTitle, TableHeader, Rule(60)] + Rows(sorted[..Min(50, |procs|)])
        + (if |procs| > 50 then [MoreProcesses(|procs| - 50)] else []) + [TotalProcesses(|procs|)]
  {
    var sorted := SortDesc(procs, CpuOf);
    SortDescFacts(procs, CpuOf);
    lines := [ListTitle, TableHeader, Rule(60)];
    lines := AppendRows(lines, sorted, 50);
    if |procs| > 50 {
      lines := lines + [MoreProcesses(|procs| - 50)];
    }
    lines := lines + [TotalProcesses(|procs|)];
  }

  /**
   * The full listing shows the first min(50, n) processes in CPU order,
   * names the hidden remainder exactly when there is one, and ends with the
   * total.
   */
  lemma ListingFacts(procs: seq<Process>, k: nat)
    ensures var sorted := SortDesc(procs, CpuOf);
      var more: seq<ProcessLine> := if |procs| > 50 then [MoreProcesses(|procs| - 50)] else [];
      var lines := [ListTitle, TableHeader, Rule(60)] + Rows(sorted[..Min(50, |procs|)]) + more + [TotalProcesses(|procs|)];
      && Shown(lines) == sorted[..Min(50, |procs|)]
      && (MoreProcesses(k) in lines <==> |procs| > 50 && k == |procs| - 50)
      && lines[|lines| - 1] == TotalProcesses(|procs|)
  {
    var sorted := SortDesc(procs, CpuOf);
    var shown := sorted[..Min(50, |procs|)];
    var more: seq<ProcessLine> := if |procs| > 50 then [MoreProcesses(|procs| - 50)] else [];
    RowsHoldOnlyRows(shown);
    ShownOfTable([ListTitle, TableHeader, Rule(60)], shown, more, [TotalProcesses(|procs|)]);
  }

  // ---- get_process_details ----

  /** `sys.process(pid)`: the process with that id, if any. */
  function Lookup(procs: seq<Process>, pid: nat): (r: Option<Process>)
    ensures r.Some? ==> r.value in procs && r.value.pid == pid
    ensures r.None? <==> forall i :: 0 <= i < |procs| ==> procs[i].pid != pid
  {
    if |procs| == 0 then None
    else if procs[0].pid == pid then Some(procs[0])
    else
      var rest := Lookup(procs[1..], pid);
      assert forall i :: 1 <= i < |procs| ==> procs[i] == procs[1..][i - 1];
      rest
  }

  /** The command line shown: the arguments joined with single spaces, cut to 200 bytes plus `...` when longer. */
  function CommandText(cmd: seq<string>): (r: string)
    ensures |Join(cmd, " ")| <= 200 ==> r == Join(cmd, " ")
    ensures |Join(cmd, " ")| > 200 ==> |r| == 203 && r[..200] == Join(cmd, " ")[..200] && r[200..] == "..."
  {
    var display := Join(cmd, " ");
    if |display| > 200 then display[..200] + "..." else display
  }

  /** A command line short enough to be shown whole splits back into its arguments when none holds a space. */
  lemma CommandTextRoundTrip(cmd: seq<string>)
    requires |cmd| > 0 && |Join(cmd, " ")| <= 200
    requires forall i :: 0 <= i < |cmd| ==> ' ' !in cmd[i]
    ensures Split(CommandText(cmd), ' ') == cmd
  {
    SplitJoin(cmd, ' ');
  }

  datatype DetailLine =
    | DetailsTitle(pid: nat)
    | NameLine(name: string)
    | StatusLine(status: string)
    | CpuLine(cpu: int)
    | MemoryLine(memory: nat)
    | VirtualMemoryLine(virtualMemory: nat)
    | ParentLine(parent: nat)
    | RunningLine(duration: string)
    | ExecutableLine(exe: string)
    | WorkingDirLine(cwd: string)
    | CommandLine(command: string)

  /**
   * The report of one process: the fixed lines, then the parent, running
   * time, executable, working directory and command, the optional ones
   * only when the process has that value.
   */
  function DetailLines(p: Process): (r: seq<DetailLine>)
    ensures 7 <= |r| <= 11 && r[0] == DetailsTitle(p.pid)
  {
    [DetailsTitle(p.pid), NameLine(p.name), StatusLine(p.status), CpuLine(p.cpu),
     MemoryLine(p.memory), VirtualMemoryLine(p.virtualMemory)]
    + (if p.parent.Some? then [ParentLine(p.parent.value)] else [])
    + [RunningLine(FormatDuration(p.runTime))]
    + OptionalTail(p)
  }

  /** The executable, working-directory and command lines. */
  function OptionalTail(p: Process): seq<DetailLine> {
    (if p.exe.Some? then [ExecutableLine(p.exe.value)] else [])
    + (if p.cwd.Some? then [WorkingDirLine(p.cwd.value)] else [])
    + (if |p.cmd| > 0 then [CommandLine(CommandText(p.cmd))] else [])
  }

  /** The running time is always shown, and the parent line is there exactly when the process has a parent, and shows it. */
  lemma DetailLinesFacts(p: Process)
    ensures RunningLine(FormatDuration(p.runTime)) in DetailLines(p)
    ensures forall q: nat :: ParentLine(q) in DetailLines(p) <==> p.parent == Some(q)
  {
    DetailLinesSplit(p);
    OptionalTailFacts(p);
  }

  /** Each of the executable, working-directory and command lines is there exactly when the process has that value, and shows it. */
  lemma DetailLinesOptional(p: Process)
    ensures forall e :: ExecutableLine(e) in DetailLines(p) <==> p.exe == Some(e)
    ensures forall d :: WorkingDirLine(d) in DetailLines(p) <==> p.cwd == Some(d)
    ensures forall c :: CommandLine(c) in DetailLines(p) <==> |p.cmd| > 0 && c == CommandText(p.cmd)
  {
    DetailLinesSplit(p);
    OptionalTailFacts(p);
  }

  /** The report is its fixed head, holding none of the executable, working-directory and command lines, then the optional tail. */
  lemma DetailLinesSplit(p: Process)
    ensures var fixed := [DetailsTitle(p.pid), NameLine(p.name), StatusLine(p.status), CpuLine(p.cpu),
                          MemoryLine(p.memory), VirtualMemoryLine(p.virtualMemory)];
      var parent := if p.parent.Some? then [ParentLine(p.parent.value)] else [];
      DetailLines(p) == fixed + parent + [RunningLine(FormatDuration(p.runTime))] + OptionalTail(p)
  {
  }

  lemma OptionalTailFacts(p: Process)
    ensures forall q: nat :: ParentLine(q) !in OptionalTail(p)
    ensures forall e :: ExecutableLine(e) in OptionalTail(p) <==> p.exe == Some(e)
    ensures forall d :: WorkingDirLine(d) in OptionalTail(p) <==> p.cwd == Some(d)
    ensures forall c :: CommandLine(c) in OptionalTail(p) <==> |p.cmd| > 0 && c == CommandText(p.cmd)
  {
  }

  /** Pushes the executable, working-directory and command lines. */
  method DetailTail(p: Process) returns (out: seq<DetailLine>)
    ensures out == OptionalTail(p)
  {
    out := [];
    if p.exe.Some? {
      out := out + [ExecutableLine(p.exe.value)];
    }
    if p.cwd.Some? {
      out := out + [WorkingDirLine(p.cwd.value)];
    }
    if |p.cmd| > 0 {
      var display := Join(p.cmd, " ");
      if |display| > 200 {
        out := out + [CommandLine(display[..200] + "...")];
      } else {
        out := out + [CommandLine(display)];
      }
    }
  }

  /** `get_process_details`: an unknown pid is an error, a known one gets its report. */
  method ProcessDetails(procs: seq<Process>, pid: nat) returns (r: Result<seq<DetailLine>>)
    ensures r.Err? <==> forall i :: 0 <= i < |procs| ==> procs[i].pid != pid
    ensures r.Err? ==> r.message == "Process " + NatToDecimal(pid) + " not found"
    ensures r.Ok? ==> exists p :: p in procs && p.pid == pid && r.value == DetailLines(p)
  {
    var found := Lookup(procs, pid);
    if found.None? {
      return Err("Process " + NatToDecimal(pid) + " not found");
    }
    var p := found.value;
    var output := [DetailsTitle(pid)];
    output := output + [NameLine(p.name)];
    output := output + [StatusLine(p.status)];
    output := output + [CpuLine(p.cpu)];
    output := output + [MemoryLine(p.memory)];
    output := output + [VirtualMemoryLine(p.virtualMemory)];
    if p.parent.Some? {
      output := output + [ParentLine(p.parent.value)];
    }
    output := output + [RunningLine(FormatDuration(p.runTime))];
    var tail := DetailTail(p);
    output := output + tail;
    assert output == DetailLines(p);
    return Ok(output);
  }
}
