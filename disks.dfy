/**
 * The disk part of the system-information server: the aggregate totals of
 * `get_system_info`, its uptime line, and the per-disk lines of
 * `get_disk_info`. Space is counted in bytes as Rust `u64`.
 */
module Disks {
  import opened Bytes

  const U64: nat := 0x1_0000_0000_0000_0000

  /** A mounted filesystem as sysinfo reports it; both sizes fit in a `u64`. */
  datatype Disk = Disk(name: string, fileSystem: string, mountPoint: string, total: nat, available: nat)

  predicate ValidDisk(d: Disk) {
    d.total < U64 && d.available < U64
  }

  /** The true sum of the disks' total space, before any overflow. */
  function SumTotal(disks: seq<Disk>): nat {
    if |disks| == 0 then 0 else SumTotal(disks[..|disks| - 1]) + disks[|disks| - 1].total
  }

  /** The true sum of the disks' available space, before any overflow. */
  function SumAvailable(disks: seq<Disk>): nat {
    if |disks| == 0 then 0 else SumAvailable(disks[..|disks| - 1]) + disks[|disks| - 1].available
  }

  /** `u64` addition as a release build performs it: modulo 2^64. */
  function AddU64(a: nat, b: nat): (r: nat)
    requires a < U64 && b < U64
    ensures r < U64
    ensures r == (a + b) % U64
  {
    if a + b < U64 then a + b else a + b - U64
  }

  /**
   * The accumulation loop of `get_system_info`: both running sums start at
   * 0 and add each disk in enumeration order; each total is the true sum
   * modulo 2^64.
   */
  method DiskTotals(disks: seq<Disk>) returns (total: nat, free: nat)
    requires forall i :: 0 <= i < |disks| ==> ValidDisk(disks[i])
    ensures total == SumTotal(disks) % U64
    ensures free == SumAvailable(disks) % U64
  {
    total, free := 0, 0;
    for i := 0 to |disks|
      invariant total == SumTotal(disks[..i]) % U64
      invariant free == SumAvailable(disks[..i]) % U64
    {
      TotalsStep(disks, i);
      total := AddU64(total, disks[i].total);
      free := AddU64(free, disks[i].available);
    }
    assert disks[..|disks|] == disks;
  }

  /** One more disk adds its sizes, modulo 2^64, to the running totals. */
  lemma TotalsStep(disks: seq<Disk>, i: nat)
    requires i < |disks| && ValidDisk(disks[i])
    ensures SumTotal(disks[..i + 1]) % U64 == AddU64(SumTotal(disks[..i]) % U64, disks[i].total)
    ensures SumAvailable(disks[..i + 1]) % U64 == AddU64(SumAvailable(disks[..i]) % U64, disks[i].available)
  {
    assert disks[..i + 1][..i] == disks[..i];
    AddStep(SumTotal(disks[..i]), disks[i].total);
    AddStep(SumAvailable(disks[..i]), disks[i].available);
  }

  /** Adding to a running sum kept modulo 2^64 keeps it equal to the true sum modulo 2^64. */
  lemma AddStep(sum: nat, x: nat)
    requires x < U64
    ensures (sum + x) % U64 == AddU64(sum % U64, x)
  {
    var q, r := sum / U64, sum % U64;
    assert sum + x == q * U64 + (r + x);
    if r + x >= U64 {
      assert sum + x == (q + 1) * U64 + (r + x - U64);
    }
  }

  /** The sums follow enumeration order: the disks of a longer list add on top of the earlier ones. */
  lemma {:induction false} SumsAppend(front: seq<Disk>, back: seq<Disk>)
    ensures SumTotal(front + back) == SumTotal(front) + SumTotal(back)
    ensures SumAvailable(front + back) == SumAvailable(front) + SumAvailable(back)
  {
    if |back| > 0 {
      var all := front + back;
      assert all[..|all| - 1] == front + back[..|back| - 1];
      SumsAppend(front, back[..|back| - 1]);
    } else {
      assert front + back == front;
    }
  }

  /** `total - free` in a release build: wraps modulo 2^64 when more space is free than there is. */
  function UsedSpace(d: Disk): (used: nat)
    requires ValidDisk(d)
    ensures used < U64
    ensures d.available <= d.total ==> used == d.total - d.available
    ensures d.available > d.total ==> used == U64 + d.total - d.available
  {
    if d.available <= d.total then d.total - d.available else U64 + d.total - d.available
  }

  /** The `as u64` cast of a non-negative value: values beyond `u64::MAX` saturate. */
  function SaturateU64(x: nat): nat {
    if x < U64 then x else U64 - 1
  }

  /**
   * The usage percent: 0 for a disk of size 0, otherwise `used * 100 /
   * total` rounded toward zero, as the `as u64` cast truncates.
   */
  function UsagePercent(d: Disk): (p: nat)
    requires ValidDisk(d)
    ensures d.total == 0 ==> p == 0
    ensures p < U64
    ensures d.available <= d.total ==> p <= 100
  {
    var scaled: nat := UsedSpace(d) * 100;
    if d.total > 0 then
      PercentAtMostHundred(UsedSpace(d), d.total);
      SaturateU64(scaled / d.total)
    else 0
  }

  lemma PercentAtMostHundred(used: nat, total: nat)
    requires 0 < total
    ensures used <= total ==> used * 100 / total <= 100
  {
    if used <= total {
      var x := used * 100;
      var q, rest := x / total, x % total;
      assert x == q * total + rest && 0 <= rest;
      assert q * total < 101 * total;
      MulCancel(q, 101, total);
    }
  }

  lemma MulCancel(a: nat, b: nat, c: nat)
    requires 0 < c && a * c < b * c
    ensures a < b
  {
  }

  /**
   * A disk of size 0 shows 0%; otherwise, when no more space is free than
   * the disk holds, the percent is the largest whole percentage of the disk
   * in use: p% of total <= used < (p+1)% of total, so at most 100.
   */
  lemma PercentMeaning(d: Disk)
    requires ValidDisk(d)
    ensures d.total == 0 ==> UsagePercent(d) == 0
    ensures 0 < d.total && d.available <= d.total ==>
      var used, p := d.total - d.available, UsagePercent(d);
      p <= 100 && p * d.total <= used * 100 < (p + 1) * d.total
  {
    if 0 < d.total && d.available <= d.total {
      var scaled, total := (d.total - d.available) * 100, d.total;
      var q, rest := scaled / total, scaled % total;
      assert scaled == q * total + rest && rest < total;
      assert UsagePercent(d) == q;
      assert (q + 1) * total == q * total + total;
    }
  }

  /** One disk's block in `get_disk_info`. */
  datatype DiskLine = DiskTitle | DiskEntry(name: string, fileSystem: string, used: ByteText, total: ByteText, percent: nat, mountPoint: string)

  /**
   * One disk's entry: its name, filesystem and mount point, the used space
   * (total minus free when no more is free than the disk holds), the total
   * and the percent.
   */
  function Entry(d: Disk): (line: DiskLine)
    requires ValidDisk(d)
    ensures line.DiskEntry? && line.name == d.name && line.fileSystem == d.fileSystem && line.mountPoint == d.mountPoint
    ensures line.total == FormatBytes(d.total)
    ensures d.available <= d.total ==> line.used == FormatBytes(d.total - d.available) && line.percent <= 100
  {
    DiskEntry(d.name, d.fileSystem, FormatBytes(UsedSpace(d)), FormatBytes(d.total), UsagePercent(d), d.mountPoint)
  }

  function Entries(disks: seq<Disk>): (r: seq<DiskLine>)
    requires forall i :: 0 <= i < |disks| ==> ValidDisk(disks[i])
    ensures |r| == |disks|
    ensures forall i :: 0 <= i < |disks| ==> r[i] == Entry(disks[i])
  {
    if |disks| == 0 then [] else Entries(disks[..|disks| - 1]) + [Entry(disks[|disks| - 1])]
  }

  /** The body of the `get_disk_info` loop for one disk. */
  method DiskBlock(d: Disk) returns (line: DiskLine)
    requires ValidDisk(d)
    ensures line == Entry(d)
  {
    var total := d.total;
    var free := d.available;
    var used := if free <= total then total - free else U64 + total - free;
    assert used == UsedSpace(d);
    var percent := if total > 0 then SaturateU64(used * 100 / total) else 0;
    line := DiskEntry(d.name, d.fileSystem, FormatBytes(used), FormatBytes(total), percent, d.mountPoint);
  }

  /** `get_disk_info`: a title, then one block per disk in enumeration order. */
  method DiskInfo(disks: seq<Disk>) returns (lines: seq<DiskLine>)
    requires forall i :: 0 <= i < |disks| ==> ValidDisk(disks[i])
    ensures lines == [DiskTitle] + Entries(disks)
  {
    lines := [DiskTitle];
    for i := 0 to |disks|
      invariant lines == [DiskTitle] + Entries(disks[..i])
    {
      assert disks[..i + 1][..i] == disks[..i];
      var block := DiskBlock(disks[i]);
      lines := lines + [block];
    }
    assert disks[..|disks|] == disks;
  }

  // ---- uptime ----

  /** `Uptime: {h}h {m}m`: whole hours, then the whole minutes left over. */
  function UptimeParts(seconds: nat): (r: (nat, nat))
    ensures r.1 < 60
    ensures r.0 * 3600 + r.1 * 60 <= seconds < r.0 * 3600 + r.1 * 60 + 60
  {
    var hours := seconds / 3600;
    var mins := (seconds % 3600) / 60;
    assert seconds == hours * 3600 + mins * 60 + (seconds % 3600) % 60;
    (hours, mins)
  }
}
