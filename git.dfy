/**
 * The git tools over a repository already read by libgit2: `get_status`
 * sorts the status entries into three independent buckets and lists at most
 * five paths per bucket; `get_log` lists at most ten commits of the walk
 * from HEAD.
 */
module Git {
  import opened Base
  import opened Text

  /** The status bits of one libgit2 status entry (the last five are never looked at). */
  datatype StatusFlags = StatusFlags(
    indexNew: bool, indexModified: bool, indexDeleted: bool,
    wtNew: bool, wtModified: bool, wtDeleted: bool,
    indexRenamed: bool, indexTypechange: bool, wtRenamed: bool, wtTypechange: bool, conflicted: bool)

  /** A status entry; its path is absent when it is not valid UTF-8. */
  datatype StatusEntry = StatusEntry(path: Option<string>, flags: StatusFlags)

  datatype Bucket = Staged | Modified | Untracked

  /** The three tests are independent: one entry may land in several buckets, or in none. */
  predicate InBucket(e: StatusEntry, b: Bucket) {
    match b
    case Staged => e.flags.indexNew || e.flags.indexModified || e.flags.indexDeleted
    case Modified => e.flags.wtModified || e.flags.wtDeleted
    case Untracked => e.flags.wtNew
  }

  /** A missing path is shown as `?`. */
  function DisplayPath(e: StatusEntry): string {
    e.path.GetOr("?")
  }

  /** The paths of the entries that belong to bucket `b`, in enumeration order. */
  function BucketPaths(entries: seq<StatusEntry>, b: Bucket): seq<string> {
    if |entries| == 0 then []
    else
      var last := entries[|entries| - 1];
      BucketPaths(entries[..|entries| - 1], b) + (if InBucket(last, b) then [DisplayPath(last)] else [])
  }

  /** The loop of `get_status` that pushes each entry's path into the buckets it belongs to. */
  method Classify(entries: seq<StatusEntry>) returns (staged: seq<string>, modified: seq<string>, untracked: seq<string>)
    ensures staged == BucketPaths(entries, Staged)
    ensures modified == BucketPaths(entries, Modified)
    ensures untracked == BucketPaths(entries, Untracked)
  {
    staged, modified, untracked := [], [], [];
    for i := 0 to |entries|
      invariant staged == BucketPaths(entries[..i], Staged)
      invariant modified == BucketPaths(entries[..i], Modified)
      invariant untracked == BucketPaths(entries[..i], Untracked)
    {
      var entry := entries[i];
      var path := entry.path.GetOr("?");
      var status := entry.flags;
      assert entries[..i + 1][..i] == entries[..i];
      if status.indexNew || status.indexModified || status.indexDeleted {
        staged := staged + [path];
      }
      if status.wtModified || status.wtDeleted {
        modified := modified + [path];
      }
      if status.wtNew {
        untracked := untracked + [path];
      }
    }
    assert entries[..|entries|] == entries;
  }

  /** A path is listed in a bucket exactly when some entry with that path belongs to the bucket. */
  lemma {:induction false} BucketPathsMembership(entries: seq<StatusEntry>, b: Bucket, p: string)
    ensures p in BucketPaths(entries, b) <==> exists i :: 0 <= i < |entries| && InBucket(entries[i], b) && DisplayPath(entries[i]) == p
  {
    if |entries| > 0 {
      var init := entries[..|entries| - 1];
      BucketPathsMembership(init, b, p);
      if p in BucketPaths(init, b) {
        var i :| 0 <= i < |init| && InBucket(init[i], b) && DisplayPath(init[i]) == p;
        assert entries[i] == init[i];
      }
      if exists i :: 0 <= i < |entries| && InBucket(entries[i], b) && DisplayPath(entries[i]) == p {
        var i :| 0 <= i < |entries| && InBucket(entries[i], b) && DisplayPath(entries[i]) == p;
        if i < |init| {
          assert init[i] == entries[i];
        }
      }
    }
  }

  /** A bucket is empty exactly when no entry belongs to it. */
  lemma {:induction false} BucketEmpty(entries: seq<StatusEntry>, b: Bucket)
    ensures BucketPaths(entries, b) == [] <==> forall i :: 0 <= i < |entries| ==> !InBucket(entries[i], b)
  {
    if |entries| > 0 {
      var init := entries[..|entries| - 1];
      BucketEmpty(init, b);
      if BucketPaths(entries, b) == [] {
        forall i | 0 <= i < |entries| ensures !InBucket(entries[i], b) {
          if i < |init| {
            assert init[i] == entries[i];
          }
        }
      }
    }
  }

  /** Buckets keep enumeration order: the entries of a longer list add their paths after the earlier ones. */
  lemma {:induction false} BucketPathsAppend(front: seq<StatusEntry>, back: seq<StatusEntry>, b: Bucket)
    ensures BucketPaths(front + back, b) == BucketPaths(front, b) + BucketPaths(back, b)
  {
    if |back| > 0 {
      var all := front + back;
      assert all[..|all| - 1] == front + back[..|back| - 1];
      BucketPathsAppend(front, back[..|back| - 1], b);
    } else {
      assert front + back == front;
    }
  }

  lemma {:induction false} BucketPathsLength(entries: seq<StatusEntry>, b: Bucket)
    ensures |BucketPaths(entries, b)| <= |entries|
  {
    if |entries| > 0 {
      BucketPathsLength(entries[..|entries| - 1], b);
    }
  }

  // ---- the report ----

  /** A 40-character hexadecimal object id as libgit2 prints it. */
  type Oid = s: string | |s| == 40 witness "0000000000000000000000000000000000000000"

  /** A commit; missing summary or author name, or a time chrono cannot format, are `None`. */
  datatype CommitInfo = CommitInfo(id: Oid, summary: Option<string>, author: Option<string>, date: Option<string>)

  /** The outcome of resolving HEAD: an error (for one, no commit yet) or a reference. */
  datatype HeadState = HeadUnresolved | Head(shorthand: Option<string>, commit: Option<CommitInfo>)

  /** What `get_status` reads from the repository: the work directory, HEAD and the statuses (or the error getting them). */
  datatype Repository = Repository(workdir: Option<string>, head: HeadState, statuses: Result<seq<StatusEntry>>)

  /** One pushed line of the `get_status` report. */
  datatype StatusLine =
    | StatusTitle
    | RepositoryLine(workdir: string)
    | BranchLine(name: string)
    | NoCommitsYet
    | LastCommitTitle
    | CommitSummaryLine(shortId: string, summary: string)
    | AuthorLine(name: string)
    | DateLine(date: string)
    | WorkingTreeTitle
    | CleanLine
    | BucketTitle(bucket: Bucket, count: nat)
    | PathLine(bucket: Bucket, path: string)
    | MoreLine(bucket: Bucket, more: nat)
    | StatusFailure(message: string)

  /** The exact text each line adds to the report; each ends in a newline. */
  function RenderStatusLine(line: StatusLine): (r: string)
    ensures |r| > 0 && r[|r| - 1] == '\n'
  {
    match line
    case StatusTitle => "Git Repository Status:\n\n"
    case RepositoryLine(w) => "Repository: " + w + "\n"
    case BranchLine(n) => "Branch: " + n + "\n"
    case NoCommitsYet => "Branch: (no commits yet)\n"
    case LastCommitTitle => "\nLast Commit:\n"
    case CommitSummaryLine(id, s) => "  " + id + " - " + s + "\n"
    case AuthorLine(a) => "  Author: " + a + "\n"
    case DateLine(d) => "  Date: " + d + "\n"
    case WorkingTreeTitle => "\nWorking Tree:\n"
    case CleanLine => "  Clean - nothing to commit\n"
    case BucketTitle(Staged, n) => "  Staged: " + NatToDecimal(n) + " file(s)\n"
    case BucketTitle(Modified, n) => "  Modified: " + NatToDecimal(n) + " file(s)\n"
    case BucketTitle(Untracked, n) => "  Untracked: " + NatToDecimal(n) + " file(s)\n"
    case PathLine(Staged, p) => "    + " + p + "\n"
    case PathLine(Modified, p) => "    M " + p + "\n"
    case PathLine(Untracked, p) => "    ? " + p + "\n"
    case MoreLine(_, n) => "    ... and " + NatToDecimal(n) + " more\n"
    case StatusFailure(e) => "\nCould not get status: " + e + "\n"
  }

  /** `&id[..7]`: the abbreviated commit id, the first seven characters of the full one. */
  function ShortId(id: Oid): (r: string)
    ensures |r| == 7 && r <= id
  {
    id[..7]
  }

  /** The branch and last-commit part of the report. */
  function HeadLines(head: HeadState): seq<StatusLine> {
    match head
    case HeadUnresolved => [NoCommitsYet]
    case Head(shorthand, commit) =>
      (if shorthand.Some? then [BranchLine(shorthand.value)] else [])
      + (if commit.Some? then
           var c := commit.value;
           [LastCommitTitle, CommitSummaryLine(ShortId(c.id), c.summary.GetOr("(no message)")),
            AuthorLine(c.author.GetOr("unknown")), DateLine(c.date.GetOr("unknown"))]
         else [])
  }

  function PathLines(b: Bucket, paths: seq<string>): seq<StatusLine> {
    if |paths| == 0 then [] else PathLines(b, paths[..|paths| - 1]) + [PathLine(b, paths[|paths| - 1])]
  }

  /** One bucket's section: nothing when empty, otherwise its title, its first five paths and a count of the rest. */
  function Section(b: Bucket, paths: seq<string>): seq<StatusLine> {
    if |paths| == 0 then []
    else
      [BucketTitle(b, |paths|)] + PathLines(b, paths[..Min(5, |paths|)])
      + (if |paths| > 5 then [MoreLine(b, |paths| - 5)] else [])
  }

  /** The working-tree part of the report. */
  function WorkingTreeLines(statuses: Result<seq<StatusEntry>>): seq<StatusLine> {
    match statuses
    case Err(e) => [StatusFailure(e)]
    case Ok(entries) =>
      var staged := BucketPaths(entries, Staged);
      var modified := BucketPaths(entries, Modified);
      var untracked := BucketPaths(entries, Untracked);
      [WorkingTreeTitle]
      + if staged == [] && modified == [] && untracked == [] then [CleanLine]
        else Sections(staged, modified, untracked)
  }

  function Sections(staged: seq<string>, modified: seq<string>, untracked: seq<string>): seq<StatusLine> {
    Section(Staged, staged) + Section(Modified, modified) + Section(Untracked, untracked)
  }

  /** Appends one bucket's section, pushing at most five path lines. */
  method AppendSection(lines: seq<StatusLine>, b: Bucket, paths: seq<string>) returns (out: seq<StatusLine>)
    ensures out == lines + Section(b, paths)
  {
    out := lines;
    if |paths| > 0 {
      out := out + [BucketTitle(b, |paths|)];
      var shown := if |paths| < 5 then |paths| else 5;
      for i := 0 to shown
        invariant out == lines + [BucketTitle(b, |paths|)] + PathLines(b, paths[..i])
      {
        assert paths[..i + 1][..i] == paths[..i];
        out := out + [PathLine(b, paths[i])];
      }
      if |paths| > 5 {
        out := out + [MoreLine(b, |paths| - 5)];
      }
    }
  }

  /** Pushes the branch and last-commit lines. */
  method AppendHead(lines: seq<StatusLine>, head: HeadState) returns (out: seq<StatusLine>)
    ensures out == lines + HeadLines(head)
  {
    out := lines;
    match head {
      case Head(shorthand, commit) =>
        if shorthand.Some? {
          out := out + [BranchLine(shorthand.value)];
        }
        ghost var branch := out;
        if commit.Some? {
          var c := commit.value;
          out := out + [LastCommitTitle];
          out := out + [CommitSummaryLine(ShortId(c.id), c.summary.GetOr("(no message)"))];
          out := out + [AuthorLine(c.author.GetOr("unknown"))];
          out := out + [DateLine(c.date.GetOr("unknown"))];
        }
        assert out == lines + HeadLines(head);
      case HeadUnresolved =>
        out := out + [NoCommitsYet];
    }
  }

  /** Pushes the three sections in the order staged, modified, untracked. */
  method AppendSections(lines: seq<StatusLine>, staged: seq<string>, modified: seq<string>, untracked: seq<string>)
    returns (out: seq<StatusLine>)
    ensures out == lines + Sections(staged, modified, untracked)
  {
    out := AppendSection(lines, Staged, staged);
    out := AppendSection(out, Modified, modified);
    out := AppendSection(out, Untracked, untracked);
  }

  /** Pushes the working-tree lines: the failure, `Clean`, or the three sections. */
  method AppendWorkingTree(lines: seq<StatusLine>, statuses: Result<seq<StatusEntry>>) returns (out: seq<StatusLine>)
    ensures out == lines + WorkingTreeLines(statuses)
  {
    match statuses {
      case Ok(entries) =>
        var staged, modified, untracked := Classify(entries);
        out := lines + [WorkingTreeTitle];
        if staged == [] && modified == [] && untracked == [] {
          out := out + [CleanLine];
        } else {
          out := AppendSections(out, staged, modified, untracked);
        }
        assert out == lines + ([WorkingTreeTitle] + if staged == [] && modified == [] && untracked == [] then [CleanLine]
          else Sections(staged, modified, untracked));
      case Err(e) =>
        out := lines + [StatusFailure(e)];
    }
  }

  /** `get_status`: fails only when no repository is found; every later problem is reported in the text. */
  method GetStatus(discovered: Result<Repository>) returns (r: Result<seq<StatusLine>>)
    ensures discovered.Err? ==> r == Err("Not a git repository: " + discovered.message)
    ensures discovered.Ok? ==>
      r == Ok([StatusTitle]
              + (if discovered.value.workdir.Some? then [RepositoryLine(discovered.value.workdir.value)] else [])
              + HeadLines(discovered.value.head)
              + WorkingTreeLines(discovered.value.statuses))
  {
    if discovered.Err? {
      return Err("Not a git repository: " + discovered.message);
    }
    var repo := discovered.value;
    var result := [StatusTitle];
    if repo.workdir.Some? {
      result := result + [RepositoryLine(repo.workdir.value)];
    }
    assert result == [StatusTitle] + (if repo.workdir.Some? then [RepositoryLine(repo.workdir.value)] else []);
    result := AppendHead(result, repo.head);
    result := AppendWorkingTree(result, repo.statuses);
    return Ok(result);
  }

  // ---- what the working-tree part promises ----

  /** The paths listed under bucket `b`, in the order of their lines. */
  function ListedPaths(lines: seq<StatusLine>, b: Bucket): seq<string> {
    if |lines| == 0 then []
    else
      (if lines[0].PathLine? && lines[0].bucket == b then [lines[0].path] else []) + ListedPaths(lines[1..], b)
  }

  lemma {:induction false} ListedPathsAppend(xs: seq<StatusLine>, ys: seq<StatusLine>, b: Bucket)
    ensures ListedPaths(xs + ys, b) == ListedPaths(xs, b) + ListedPaths(ys, b)
  {
    if |xs| > 0 {
      assert (xs + ys)[1..] == xs[1..] + ys;
      ListedPathsAppend(xs[1..], ys, b);
    } else {
      assert xs + ys == ys;
    }
  }

  lemma {:induction false} ListedPathLines(b: Bucket, c: Bucket, paths: seq<string>)
    ensures ListedPaths(PathLines(b, paths), c) == if b == c then paths else []
    ensures forall i :: 0 <= i < |PathLines(b, paths)| ==> PathLines(b, paths)[i].PathLine?
  {
    if |paths| > 0 {
      var init := paths[..|paths| - 1];
      ListedPathLines(b, c, init);
      ListedPathsAppend(PathLines(b, init), [PathLine(b, paths[|paths| - 1])], c);
      assert [PathLine(b, paths[|paths| - 1])][1..] == [];
      assert init + [paths[|paths| - 1]] == paths;
    }
  }

  lemma SectionListing(b: Bucket, c: Bucket, paths: seq<string>)
    ensures ListedPaths(Section(b, paths), c) == if b == c then paths[..Min(5, |paths|)] else []
    ensures CleanLine !in Section(b, paths)
  {
    if |paths| > 0 {
      var head := [BucketTitle(b, |paths|)];
      var shown := paths[..Min(5, |paths|)];
      var mid := PathLines(b, shown);
      var tail: seq<StatusLine> := if |paths| > 5 then [MoreLine(b, |paths| - 5)] else [];
      assert Section(b, paths) == head + mid + tail;
      ListedPathLines(b, c, shown);
      ListedPathsAppend(head, mid, c);
      ListedPathsAppend(head + mid, tail, c);
      assert ListedPaths(head, c) == [] by {
        assert head[1..] == [];
      }
      assert ListedPaths(tail, c) == [] by {
        if |paths| > 5 {
          assert tail[1..] == [];
        }
      }
      assert CleanLine !in mid;
    }
  }

  lemma SectionsListing(staged: seq<string>, modified: seq<string>, untracked: seq<string>, b: Bucket)
    ensures ListedPaths(Sections(staged, modified, untracked), b)
      == match b
         case Staged => staged[..Min(5, |staged|)]
         case Modified => modified[..Min(5, |modified|)]
         case Untracked => untracked[..Min(5, |untracked|)]
  {
    SectionListing(Staged, b, staged);
    SectionListing(Modified, b, modified);
    SectionListing(Untracked, b, untracked);
    ListedPathsAppend(Section(Staged, staged), Section(Modified, modified), b);
    ListedPathsAppend(Section(Staged, staged) + Section(Modified, modified), Section(Untracked, untracked), b);
  }

  /**
   * Under each bucket the report lists the first five of that bucket's
   * paths (all of them when there are at most five), in enumeration order.
   */
  lemma ListsFirstFive(entries: seq<StatusEntry>, b: Bucket)
    ensures var paths := BucketPaths(entries, b);
      ListedPaths(WorkingTreeLines(Ok(entries)), b) == paths[..Min(5, |paths|)]
  {
    var staged := BucketPaths(entries, Staged);
    var modified := BucketPaths(entries, Modified);
    var untracked := BucketPaths(entries, Untracked);
    assert [WorkingTreeTitle][1..] == [];
    assert ListedPaths([WorkingTreeTitle], b) == [];
    if staged == [] && modified == [] && untracked == [] {
      assert [CleanLine][1..] == [];
      ListedPathsAppend([WorkingTreeTitle], [CleanLine], b);
    } else {
      SectionsListing(staged, modified, untracked, b);
      ListedPathsAppend([WorkingTreeTitle], Sections(staged, modified, untracked), b);
    }
  }

  /** The tree is reported clean exactly when no entry is staged, modified or untracked. */
  lemma CleanExactly(entries: seq<StatusEntry>)
    ensures CleanLine in WorkingTreeLines(Ok(entries))
      <==> forall i, b :: 0 <= i < |entries| ==> !InBucket(entries[i], b)
  {
    var staged := BucketPaths(entries, Staged);
    var modified := BucketPaths(entries, Modified);
    var untracked := BucketPaths(entries, Untracked);
    BucketEmpty(entries, Staged);
    BucketEmpty(entries, Modified);
    BucketEmpty(entries, Untracked);
    SectionListing(Staged, Staged, staged);
    SectionListing(Modified, Modified, modified);
    SectionListing(Untracked, Untracked, untracked);
    if forall i, b :: 0 <= i < |entries| ==> !InBucket(entries[i], b) {
      assert staged == [] && modified == [] && untracked == [];
    } else {
      var i, b :| 0 <= i < |entries| && InBucket(entries[i], b);
      assert b == Staged || b == Modified || b == Untracked;
      assert CleanLine !in Sections(staged, modified, untracked);
    }
  }

  lemma SectionMoreLine(b: Bucket, c: Bucket, paths: seq<string>, n: nat)
    ensures MoreLine(c, n) in Section(b, paths) <==> b == c && |paths| > 5 && n == |paths| - 5
  {
    if |paths| > 0 {
      PathLinesHoldOnlyPaths(b, paths[..Min(5, |paths|)]);
    }
  }

  /** A bucket gets a `... and N more` line exactly when it holds more than five paths, and N is the rest. */
  lemma MoreLineExactly(entries: seq<StatusEntry>, b: Bucket, n: nat)
    ensures var paths := BucketPaths(entries, b);
      MoreLine(b, n) in WorkingTreeLines(Ok(entries)) <==> |paths| > 5 && n == |paths| - 5
  {
    var staged := BucketPaths(entries, Staged);
    var modified := BucketPaths(entries, Modified);
    var untracked := BucketPaths(entries, Untracked);
    SectionMoreLine(Staged, b, staged, n);
    SectionMoreLine(Modified, b, modified, n);
    SectionMoreLine(Untracked, b, untracked, n);
  }

  lemma {:induction false} PathLinesHoldOnlyPaths(b: Bucket, paths: seq<string>)
    ensures forall line :: line in PathLines(b, paths) ==> line.PathLine?
  {
    if |paths| > 0 {
      PathLinesHoldOnlyPaths(b, paths[..|paths| - 1]);
    }
  }

  // ---- get_log ----

  /** One step of the revision walk: a walk error, an id whose commit cannot be found, or a commit. */
  datatype WalkItem = WalkFailed | CommitMissing | Found(commit: CommitInfo)

  /** Resolving HEAD and starting the walk, in the order `get_log` tries them. */
  datatype LogSource =
    | NoHead(headError: string)
    | NoTarget
    | RevwalkFailed(createError: string)
    | PushFailed(pushError: string)
    | Walk(items: seq<WalkItem>)

  datatype LogLine = LogTitle | CommitLine(shortId: string, author: string, summary: string) | NoCommitsFound

  /** The text of one line; each ends in a newline, so the report splits back into its lines. */
  function RenderLogLine(line: LogLine): (r: string)
    ensures |r| > 0 && r[|r| - 1] == '\n'
  {
    match line
    case LogTitle => "Recent Commits:\n\n"
    case CommitLine(id, a, s) => id + " " + a + " - " + s + "\n"
    case NoCommitsFound => "No commits found.\n"
  }

  function CommitLineOf(c: CommitInfo): LogLine {
    CommitLine(ShortId(c.id), c.author.GetOr("unknown"), c.summary.GetOr("(no message)"))
  }

  /** The commit lines for the walk items taken, skipping the ones that failed. */
  function CommitLines(items: seq<WalkItem>): seq<LogLine> {
    if |items| == 0 then []
    else
      var last := items[|items| - 1];
      CommitLines(items[..|items| - 1]) + (if last.Found? then [CommitLineOf(last.commit)] else [])
  }

  lemma {:induction false} CommitLinesLength(items: seq<WalkItem>)
    ensures |CommitLines(items)| <= |items|
    ensures |CommitLines(items)| == 0 <==> forall i :: 0 <= i < |items| ==> !items[i].Found?
  {
    if |items| > 0 {
      var init := items[..|items| - 1];
      CommitLinesLength(init);
      if |CommitLines(items)| == 0 {
        forall i | 0 <= i < |items| ensures !items[i].Found? {
          if i < |init| {
            assert init[i] == items[i];
          }
        }
      }
    }
  }

  /**
   * `get_log`: the errors come in the order HEAD, its target, creating the
   * walk, starting it; otherwise the report lists the commits among the first
   * ten walk items (a failed item still uses up one of the ten) and says
   * `No commits found.` when there were none.
   */
  method GetLog(discovered: Result<LogSource>) returns (r: Result<seq<LogLine>>)
    ensures discovered.Err? ==> r == Err("Not a git repository: " + discovered.message)
    ensures discovered.Ok? ==> match discovered.value
      case NoHead(e) => r == Err("No HEAD: " + e)
      case NoTarget => r == Err("HEAD has no target")
      case RevwalkFailed(e) => r == Err("Failed to create revwalk: " + e)
      case PushFailed(e) => r == Err("Failed to push HEAD: " + e)
      case Walk(items) =>
        var listed := CommitLines(items[..Min(10, |items|)]);
        r == Ok([LogTitle] + listed + (if |listed| == 0 then [NoCommitsFound] else []))
  {
    if discovered.Err? {
      return Err("Not a git repository: " + discovered.message);
    }
    match discovered.value {
      case NoHead(e) => return Err("No HEAD: " + e);
      case NoTarget => return Err("HEAD has no target");
      case RevwalkFailed(e) => return Err("Failed to create revwalk: " + e);
      case PushFailed(e) => return Err("Failed to push HEAD: " + e);
      case Walk(items) =>
        var result := [LogTitle];
        var count := 0;
        var taken := if |items| < 10 then |items| else 10;
        for i := 0 to taken
          invariant result == [LogTitle] + CommitLines(items[..i])
          invariant count == |CommitLines(items[..i])|
        {
          assert items[..i + 1][..i] == items[..i];
          match items[i] {
            case Found(c) =>
              count := count + 1;
              result := result + [CommitLineOf(c)];
            case _ =>
          }
        }
        assert taken == Min(10, |items|);
        ghost var listed := CommitLines(items[..taken]);
        if count == 0 {
          result := result + [NoCommitsFound];
        } else {
          assert result == [LogTitle] + listed + [];
        }
        return Ok(result);
    }
  }

  /** The log lists at most ten commits, and reports `No commits found.` exactly when it lists none. */
  lemma LogBounds(items: seq<WalkItem>)
    ensures var listed := CommitLines(items[..Min(10, |items|)]);
      |listed| <= 10 && (|listed| == 0 <==> forall i :: 0 <= i < Min(10, |items|) ==> !items[i].Found?)
  {
    var taken := items[..Min(10, |items|)];
    CommitLinesLength(taken);
    assert forall i :: 0 <= i < |taken| ==> taken[i] == items[i];
  }
}
