# rmcp-sensors report builders, modelled in Dafny

rmcp-sensors exposes host queries as tools. The queries cover idle time, system
information and processes, git, weather, network interfaces and USB devices.
Each tool asks an operating-system or third-party library for records and then
builds a text report from them. This project models the part that runs after
the records have been fetched: the report builders, and the small selection and
arithmetic rules inside them.

The model takes these inputs as plain values:

- process records;
- git status entries with their flag booleans;
- disks;
- wttr.in responses;
- network interfaces;
- USB devices.

A failed library call arrives as an `Err` value. Every report is a sequence of
typed lines, one constructor for each `push_str` in the source. A `Render…`
function gives each line's exact text wherever no floating-point value is
printed. Where the source builds a report step by step (`for` loops that push
onto a `String`), the model does the same in a `method` with loop invariants.
Each such method is proved equal to a specification function, and the lemmas
are proved about that function. Pure rules such as `format_duration`, the
loopback test and the area label are functions.

The modules follow the crates:

- `Idle` and `Duration`: `rmcp-idle`.
- `Bytes`, `Disks`, `Sorting` and `Processes`: `rmcp-sysinfo`.
- `Git`: `rmcp-git`.
- `Weather`: `rmcp-weather`.
- `Network`: `rmcp-network`.
- `Usb`: `rmcp-usb`.
- `Base` and `Text`: the Rust library behaviour these crates rely on, namely `Option`, `Result`, `{}`, `{:02}`, `{:04x}`, `parse::<u32>()`, `to_lowercase`, `contains` and `join`.

`src/main.rs` contains a second copy of most of these tools, in one server. That
copy follows the same rules:

- `format_duration`: lines 157-177.
- The idle comparison: line 325.
- Interfaces: lines 343-399.
- USB: lines 406-456.
- `get_status`: lines 607-714.
- `get_log`: lines 716-761.
- Disk sums and uptime: lines 792-801.
- Disk info: lines 844-862.
- Top processes: lines 868-913.
- Weather: lines 919-975.
- Forecast: lines 977-1021.

Each rule is modelled once, and the table below cites the crate copy.

Three behaviours of the code are easy to misread, and the model keeps them as written:

- The forecast day count. The `days` parameter is described as "Number of days (1-3, default 3)" at crates/rmcp-weather/src/lib.rs:127. Line 184 computes `unwrap_or(3).min(3)`, so a request for 0 days shows no day at all.
- The git buckets. Each is a separate `if` on the status flags at crates/rmcp-git/src/lib.rs:103-111. One entry can be listed as both staged and modified. An entry that is only renamed or only a type change is listed in none.
- The disk percent. It is cut to a whole number by the `as u64` cast at crates/rmcp-sysinfo/src/lib.rs:171. The `{:.0}` format then prints that whole number unchanged.

## Model

| member | source | states |
|---|---|---|
| Base.First | crates/rmcp-weather/src/lib.rs:141-142 | `first()` of a vector is present exactly when the vector is non-empty, and is its element 0 |
| Text.NatToDecimal | crates/rmcp-idle/src/lib.rs:69 | `{}` of an unsigned integer is non-empty and all digits, with a leading zero only for 0 |
| Text.DecimalRoundTrip | crates/rmcp-idle/src/lib.rs:69 | the printed digits read back as the printed number |
| Text.NatToDecimalInjective | crates/rmcp-idle/src/lib.rs:88-95 | different numbers print differently |
| Text.ParseU32 | crates/rmcp-weather/src/lib.rs:203 | `parse::<u32>()` succeeds only with a value below 2^32 |
| Text.ParseU32RoundTrip | crates/rmcp-weather/src/lib.rs:203 | the decimal text of every `u32` parses back to it |
| Text.ParseU32RejectsNonDigits | crates/rmcp-weather/src/lib.rs:203 | a non-digit anywhere after the first character makes the parse fail |
| Text.Hex4 | crates/rmcp-usb/src/lib.rs:49 | `{:04x}` of a 16-bit id is exactly four lower-case hex digits |
| Text.HexDigitsRoundTrip | crates/rmcp-usb/src/lib.rs:58-59 | zero-padded hex text reads back as the value |
| Text.Pad2 | crates/rmcp-weather/src/lib.rs:207-209 | `{:02}` gives digits that read back as the number, exactly two of them below 10 and exactly the number's own digits from 10 on |
| Text.ToLower | crates/rmcp-sysinfo/src/lib.rs:236 | lower-casing keeps the length and folds each character |
| Text.SplitJoin | crates/rmcp-sysinfo/src/lib.rs:320-321 | fields joined with a separator they do not contain split back into exactly those fields, as arguments joined with single spaces do |
| Duration.FormatDuration | crates/rmcp-idle/src/lib.rs:35-55 | the text ends in a unit letter: in `s` exactly when seconds are shown (under a minute, or under an hour and not whole minutes), in `h` exactly when the duration is an hour or more with under a minute beyond its whole hours |
| Duration.FormatDurationMeaning | crates/rmcp-idle/src/lib.rs:35-55 | the text is one or two components; the leading unit is s below 60, m below 3600 and h otherwise; a second component is the next smaller unit and below 60; no component is 0 unless the duration is; the components total the duration below an hour, and the duration less its leftover seconds from an hour on |
| Duration.FormatDurationDistinguishes | crates/rmcp-sysinfo/src/lib.rs:68-88 | equal texts mean equal durations below an hour, and equal whole minutes from an hour on |
| Duration.MinutesMeaning | crates/rmcp-idle/src/lib.rs:38-45 | between a minute and an hour the text is `Nm`, or `Nm Ns` when there are leftover seconds |
| Duration.HoursMeaning | crates/rmcp-idle/src/lib.rs:46-53 | from an hour on the text is `Nh`, or `Nh Nm` when there are leftover minutes |
| Idle.IdleCheckReport | crates/rmcp-idle/src/lib.rs:84-95 | the report ends in `Is idle: YES` exactly when the idle time is at least the threshold, and in `Is idle: NO` exactly when it is below it |
| Idle.VerdictIsLastLine | crates/rmcp-idle/src/lib.rs:88-95 | each verdict line, once appended, is the report's ending and the other is not |
| Idle.IsIdle | crates/rmcp-idle/src/lib.rs:86 | an idle time equal to the threshold counts as idle, and a threshold of 0 is always met |
| Idle.IdleMonotone | crates/rmcp-idle/src/lib.rs:86 | a longer idle time or a lower threshold never turns idle into not idle |
| Idle.IdleTimeReport | crates/rmcp-idle/src/lib.rs:65-71 | the report shows the raw seconds as digits that read back as the idle time, then ends with the formatted duration |
| Bytes.UnitFor | crates/rmcp-sysinfo/src/lib.rs:52-66 | the chosen unit is the largest of B, KB, MB, GB whose size does not exceed the count |
| Bytes.UnitMonotone | crates/rmcp-sysinfo/src/lib.rs:57-65 | a larger count never gets a smaller unit |
| Bytes.SmallCountsExact | crates/rmcp-sysinfo/src/lib.rs:63-64 | below 1024 the text is the exact count followed by ` B` |
| Bytes.FormatBytes | crates/rmcp-sysinfo/src/lib.rs:52-66 | the exact count is printed exactly when it is below 1024; otherwise the count is shown in the unit `UnitFor` picks, of which it holds at least one |
| Sorting.SortDescFacts | crates/rmcp-sysinfo/src/lib.rs:201-208 | the sorted processes are in descending key order and are a permutation of the input |
| Sorting.SortDescStable | crates/rmcp-sysinfo/src/lib.rs:203 | among processes with equal keys the sort keeps the enumeration order, as `sort_by` is stable |
| Sorting.PrefixDominates | crates/rmcp-sysinfo/src/lib.rs:214 | in a descending order every process of a prefix ranks at least as high as every process after it |
| Processes.SortKeyOf | crates/rmcp-sysinfo/src/lib.rs:201-208 | `memory` and `mem` sort by memory; every other text sorts by CPU |
| Processes.AppendRows | crates/rmcp-sysinfo/src/lib.rs:214-222 | the row loop pushes exactly one row for each of the first `min(cap, n)` processes, in order |
| Processes.TopProcesses | crates/rmcp-sysinfo/src/lib.rs:196-222 | the count defaults to 10 and the key to `cpu`; the title and a 50-wide rule come before the first `count` processes of the sorted order |
| Processes.TopShown | crates/rmcp-sysinfo/src/lib.rs:214 | the rows show exactly the first `min(count, n)` processes of the sorted order |
| Processes.TopProcessesSelection | crates/rmcp-sysinfo/src/lib.rs:199-222 | the shown processes are drawn from the table without repetition, and each ranks at least as high as every process left out |
| Processes.MemorySortStable | crates/rmcp-sysinfo/src/lib.rs:202-203 | sorting by memory keeps processes with equal memory in enumeration order |
| Processes.Matching | crates/rmcp-sysinfo/src/lib.rs:237-241 | the matches are no more than the processes |
| Processes.MatchingExactly | crates/rmcp-sysinfo/src/lib.rs:240 | a process is a match exactly when it is in the table and its lower-cased name contains the lower-cased search |
| Processes.MatchingEmpty | crates/rmcp-sysinfo/src/lib.rs:237-241 | there are no matches exactly when no name contains the search |
| Processes.FindProcess | crates/rmcp-sysinfo/src/lib.rs:236-275 | the report built line by line is the title, then either `No matching processes found.` or the table of up to 20 matches, the count of the rest and the total |
| Processes.MatchReport | crates/rmcp-sysinfo/src/lib.rs:249-275 | the title comes first; no matches give the title and `No matching processes found.` only; otherwise 4 + min(20, n) lines, one more when over 20, ending with the total, so never more than 25 |
| Processes.FindRowsMatch | crates/rmcp-sysinfo/src/lib.rs:243-268 | exactly `min(20, matches)` rows are shown, each of a matching process of the table, in descending CPU order, with no process twice |
| Processes.FindNoMatches | crates/rmcp-sysinfo/src/lib.rs:251-252 | the report says `No matching processes found.` exactly when nothing matches |
| Processes.MatchReportCounts | crates/rmcp-sysinfo/src/lib.rs:270-274 | `... and k more matches` appears exactly when there are over 20 matches, with k the number not shown; a non-empty result ends with the total |
| Processes.ListProcesses | crates/rmcp-sysinfo/src/lib.rs:338-366 | the listing is the title, a 60-wide rule, the first 50 processes by CPU, the count of the rest when over 50, and the total |
| Processes.ListingFacts | crates/rmcp-sysinfo/src/lib.rs:352-366 | the listing shows the first `min(50, n)` processes in CPU order, names the hidden remainder exactly when there is one, and ends with the total |
| Processes.Lookup | crates/rmcp-sysinfo/src/lib.rs:289-293 | the lookup fails exactly when no process in the table has the requested id, and what it finds is a process of the table with that id |
| Processes.CommandText | crates/rmcp-sysinfo/src/lib.rs:318-326 | a joined command of at most 200 bytes is shown whole; a longer one is its first 200 bytes followed by `...` |
| Processes.CommandTextRoundTrip | crates/rmcp-sysinfo/src/lib.rs:320-325 | a short command whose arguments hold no spaces is shown as text that splits back into those arguments |
| Processes.DetailLines | crates/rmcp-sysinfo/src/lib.rs:295-327 | the report starts with the title naming the pid and has between 7 and 11 lines |
| Processes.DetailLinesFacts | crates/rmcp-sysinfo/src/lib.rs:303-308 | the running time is always shown, and the parent line appears exactly when the process has a parent, and shows it |
| Processes.DetailLinesOptional | crates/rmcp-sysinfo/src/lib.rs:310-327 | the executable, working-directory and command lines each appear exactly when the process has that value, and show it |
| Processes.DetailTail | crates/rmcp-sysinfo/src/lib.rs:310-327 | the optional tail pushed step by step is the executable, directory and command lines the process calls for |
| Processes.ProcessDetails | crates/rmcp-sysinfo/src/lib.rs:289-330 | an unknown id is the error `Process N not found`; otherwise the report is that of a process in the table with that id |
| Disks.AddU64 | crates/rmcp-sysinfo/src/lib.rs:124-125 | `+=` on `u64` gives the sum modulo 2^64 |
| Disks.DiskTotals | crates/rmcp-sysinfo/src/lib.rs:121-126 | the loop's totals are the true sums of total and available space, modulo 2^64 |
| Disks.SumsAppend | crates/rmcp-sysinfo/src/lib.rs:123-126 | the sums over a list of disks add up over any split of the list |
| Disks.UsedSpace | crates/rmcp-sysinfo/src/lib.rs:170 | used space is total minus free, and wraps modulo 2^64 when more is free than there is |
| Disks.UsagePercent | crates/rmcp-sysinfo/src/lib.rs:171 | a disk of size 0 shows 0%; the percent fits a `u64`, and is at most 100 when no more is free than the disk holds |
| Disks.PercentMeaning | crates/rmcp-sysinfo/src/lib.rs:171 | a disk of size 0 shows 0%; otherwise p% of the total is at most the used space, (p+1)% is more than it, and p is at most 100 |
| Disks.Entries | crates/rmcp-sysinfo/src/lib.rs:167-182 | one block per disk, in enumeration order |
| Disks.Entry | crates/rmcp-sysinfo/src/lib.rs:168-181 | an entry shows the disk's name, filesystem, mount point and total; when no more is free than the disk holds, the used space is total minus free and the percent is at most 100 |
| Disks.DiskBlock | crates/rmcp-sysinfo/src/lib.rs:168-181 | the block of one disk shows its names, used and total space, usage percent and mount point |
| Disks.DiskInfo | crates/rmcp-sysinfo/src/lib.rs:165-182 | the report is the title followed by each disk's block, in order |
| Disks.UptimeParts | crates/rmcp-sysinfo/src/lib.rs:129-131 | the uptime shows whole hours and leftover minutes below 60, which bracket the uptime to within a minute |
| Git.Classify | crates/rmcp-git/src/lib.rs:95-112 | the three lists built by the loop are the paths of the entries in each bucket, in enumeration order, with `?` for a missing path |
| Git.BucketPathsMembership | crates/rmcp-git/src/lib.rs:99-111 | a path is in a bucket's list exactly when some entry with that path has one of the bucket's flags, independently of the other buckets |
| Git.BucketEmpty | crates/rmcp-git/src/lib.rs:116 | a bucket is empty exactly when no entry has any of its flags |
| Git.BucketPathsLength | crates/rmcp-git/src/lib.rs:120 | a bucket holds no more paths than there are entries |
| Git.RenderStatusLine | crates/rmcp-git/src/lib.rs:53-149 | every line of the status text ends in a newline |
| Git.AppendSection | crates/rmcp-git/src/lib.rs:119-127 | a section pushes its title and count, the first five paths and, when there are more, the number left out |
| Git.AppendHead | crates/rmcp-git/src/lib.rs:61-86 | the branch and last-commit lines are pushed only for a resolved head, each only when its value exists; an unresolved head gives `(no commits yet)` |
| Git.AppendWorkingTree | crates/rmcp-git/src/lib.rs:93-151 | a status failure gives `Could not get status`; otherwise `Clean` when every bucket is empty, else the non-empty sections in the order staged, modified, untracked |
| Git.GetStatus | crates/rmcp-git/src/lib.rs:35-154 | a failed discovery is the error `Not a git repository: …`; otherwise the report is the title, the workdir line when there is one, the head lines and the working-tree lines |
| Git.ListsFirstFive | crates/rmcp-git/src/lib.rs:121-123 | each bucket lists exactly its first `min(5, n)` paths, in order |
| Git.CleanExactly | crates/rmcp-git/src/lib.rs:116-117 | `Clean - nothing to commit` appears exactly when no entry is in any bucket |
| Git.MoreLineExactly | crates/rmcp-git/src/lib.rs:124-126 | `... and k more` appears for a bucket exactly when it has over five paths, with k the number not listed |
| Git.CommitLinesLength | crates/rmcp-git/src/lib.rs:177-190 | the commit loop writes at most one line per walk item, and none exactly when no item yields a commit |
| Git.ShortId | crates/rmcp-git/src/lib.rs:182 | the short id is seven characters long and is the start of the full id |
| Git.RenderLogLine | crates/rmcp-git/src/lib.rs:162-193 | every line of the log text ends in a newline |
| Git.GetLog | crates/rmcp-git/src/lib.rs:161-197 | the head, target, revwalk and push failures give their messages; otherwise one line for each commit among the first ten walk items, and `No commits found.` when there is none |
| Git.LogBounds | crates/rmcp-git/src/lib.rs:176-194 | at most ten commits are listed, and none exactly when none of the first ten items yields a commit |
| Weather.AreaLabel | crates/rmcp-weather/src/lib.rs:144-149 | the first nearest area as `name, region`, with `Unknown` for a missing name and nothing for a missing region; the requested location when there is no area |
| Weather.GetWeather | crates/rmcp-weather/src/lib.rs:139-175 | a failed fetch is passed on; no current condition is the error `No current conditions`; otherwise the first condition is shown, described by its first description or `Unknown` |
| Weather.ForecastDayCount | crates/rmcp-weather/src/lib.rs:184 | the day count is at most 3, is 3 by default and is `min(days, 3)` otherwise |
| Weather.HourOfTime | crates/rmcp-weather/src/lib.rs:203 | a time written as hours and two digits of minutes gives back its hour |
| Weather.HourOfUnreadable | crates/rmcp-weather/src/lib.rs:203 | a time that does not parse counts as hour 0 |
| Weather.HourOfBound | crates/rmcp-weather/src/lib.rs:203 | the hour times 100 stays below 2^32, as the parsed time it came from did |
| Weather.StrideSample | crates/rmcp-weather/src/lib.rs:202 | `step_by(3)` keeps `(n + 2) / 3` entries, the k-th being entry 3k |
| Weather.StrideSampleCovers | crates/rmcp-weather/src/lib.rs:202 | every entry at a position that is a multiple of 3 is kept |
| Weather.HourLines | crates/rmcp-weather/src/lib.rs:202-211 | one hourly line per sampled entry, in order, with `?` for a missing description |
| Weather.RenderForecastLine | crates/rmcp-weather/src/lib.rs:193-211 | every line of the forecast text ends in a newline |
| Weather.AppendHours | crates/rmcp-weather/src/lib.rs:202-211 | the inner loop pushes the line of every third hourly entry |
| Weather.AppendDay | crates/rmcp-weather/src/lib.rs:195-212 | a day pushes its header, its sampled hours and a blank line |
| Weather.GetForecast | crates/rmcp-weather/src/lib.rs:183-216 | a failed fetch is passed on; otherwise the title names the place and the clamped day count, followed by the sections of the first that many days |
| Weather.ForecastBody | crates/rmcp-weather/src/lib.rs:193-213 | the outer loop pushes the title and the sections of the first `min(n, days)` days |
| Weather.ForecastDays | crates/rmcp-weather/src/lib.rs:195 | the forecast has exactly `min(n, days)` day headers, the i-th being that of day i |
| Weather.DaySectionHours | crates/rmcp-weather/src/lib.rs:195-212 | a day's section is its header, `(hours + 2) / 3` hour lines (the k-th from hourly entry 3k) and a blank line |
| Network.Ipv4Text | crates/rmcp-network/src/lib.rs:58-60 | the dotted-decimal text of an address reads back as that address |
| Network.AddrLoopback | crates/rmcp-network/src/lib.rs:36-39 | an IPv4 address is loopback exactly when its 32-bit value lies in 127.0.0.0/8, an IPv6 address exactly when it is `::1` |
| Network.AnyLoopback | crates/rmcp-network/src/lib.rs:36-39 | true exactly when some address is a loopback address |
| Network.ActiveCount | crates/rmcp-network/src/lib.rs:77-79 | the active count never exceeds the number of interfaces |
| Network.ActiveCountMeaning | crates/rmcp-network/src/lib.rs:77-79 | the count is 0 exactly when no interface has an address, and all of them exactly when each has one |
| Network.RenderNetLine | crates/rmcp-network/src/lib.rs:27-81 | every line of the report text ends in a newline |
| Network.AddrLines | crates/rmcp-network/src/lib.rs:55-71 | an interface has at most one address line per address |
| Network.BlockShape | crates/rmcp-network/src/lib.rs:34-72 | a block starts with the interface's name line and ends with a blank line, with only MAC and address lines between, and at most three lines besides its addresses |
| Network.Blocks | crates/rmcp-network/src/lib.rs:34-73 | the blocks hold no title, `No network interfaces found.` or summary line |
| Network.Report | crates/rmcp-network/src/lib.rs:26-84 | the title appears once, at the top; `No network interfaces found.` appears exactly when there are no interfaces; otherwise the one summary line is last and counts all interfaces and the active ones |
| Network.AppendAddrs | crates/rmcp-network/src/lib.rs:55-71 | the address loop pushes an IPv4 line for every IPv4 address and an IPv6 line for every IPv6 address that is not link-local |
| Network.AppendInterface | crates/rmcp-network/src/lib.rs:34-74 | an interface pushes its name line, its MAC line when shown, its address lines and a blank line |
| Network.FormatInterfaces | crates/rmcp-network/src/lib.rs:26-84 | the report built line by line is the title followed by either `No network interfaces found.` or every interface's block and the summary |
| Network.GetInterfaces | crates/rmcp-network/src/lib.rs:90-96 | a failure to list is reported as `Failed to get network interfaces: …`; otherwise the formatted report |
| Network.EmptyReport | crates/rmcp-network/src/lib.rs:27-32 | the report is just the title and `No network interfaces found.` exactly when there are no interfaces, and has a summary exactly when there are some |
| Network.LoopbackMarker | crates/rmcp-network/src/lib.rs:36-44 | the name line is marked as loopback exactly when one of the addresses is a loopback address |
| Network.MacShown | crates/rmcp-network/src/lib.rs:48-52 | a MAC line appears exactly when the MAC is present, non-empty and not `00:00:00:00:00:00` |
| Network.AddressesShown | crates/rmcp-network/src/lib.rs:55-71 | every IPv4 address is listed, with ` / netmask` exactly when it has one; an IPv6 text is listed exactly when an address has it and it does not start with `fe80` |
| Usb.DisplayName | crates/rmcp-usb/src/lib.rs:46-50 | the product string when it is non-empty, otherwise `Device vvvv:pppp` |
| Usb.FallbackNameIds | crates/rmcp-usb/src/lib.rs:49 | the fallback name is 16 characters whose two four-digit hex fields read back as the vendor and product ids |
| Usb.IdsLineText | crates/rmcp-usb/src/lib.rs:58-59 | the id line always shows both ids as four lower-case hex digits each, reading back as the ids |
| Usb.RenderUsbLine | crates/rmcp-usb/src/lib.rs:34-76 | every line of the report text ends in a newline |
| Usb.BlockShape | crates/rmcp-usb/src/lib.rs:46-70 | a device block has 4 to 6 lines: its numbered name first and no other name line, a blank line last |
| Usb.DeviceBlocks | crates/rmcp-usb/src/lib.rs:37-71 | the device blocks hold no title, `No USB devices found.` or total line |
| Usb.Report | crates/rmcp-usb/src/lib.rs:34-76 | the title appears once, at the top; `No USB devices found.` appears exactly when there are no devices; `Total: k USB devices` appears exactly when k is the number of devices and it is not 0, and is then last |
| Usb.AppendDevice | crates/rmcp-usb/src/lib.rs:37-70 | a device pushes its numbered name, its manufacturer line when non-empty, its ids, its serial line when non-empty, its bus position and a blank line |
| Usb.ReportDevices | crates/rmcp-usb/src/lib.rs:34-76 | the report built by the counting loop is the title, each device's block numbered by the counter, then the total or `No USB devices found.` |
| Usb.GetUsbDevices | crates/rmcp-usb/src/lib.rs:31-32 | a failure to list is reported as `Failed to list USB devices: …`; otherwise the report |
| Usb.Numbering | crates/rmcp-usb/src/lib.rs:35-52 | the devices are numbered 1 to n in enumeration order, one name line each |
| Usb.OptionalLines | crates/rmcp-usb/src/lib.rs:54-63 | the manufacturer and serial lines appear exactly when those strings are present and non-empty, and show them |

## Left out

- Fetching the records: sysinfo refreshes and sleeps, git2 discovery and status, HTTP and JSON for wttr.in, the network-interface and USB libraries, and the idle-time query. Each tool takes the records, or the library's failure, as a parameter.
- Floating-point output: CPU usage (kept as an integer sort key), the one-decimal text of `format_bytes` above 1 KB (kept as count and unit), `mem_percent`, the load average and the CPU-usage average of `get_system_info`.
- Disks.UsagePercent: computed as `used * 100 / total` on integers, not as `used as f64 / total as f64 * 100.0`. The two rounding steps of the `f64` version can leave the product just below a whole number, even for small sizes. The source then prints one less. For example, 29 used of 100 gives 28 in the source and 29 here, and 57 of 100 gives 56 in the source and 57 here.
- Disks.PercentMeaning: its bound `p * total <= used * 100 < (p + 1) * total` is proved for the integer percent of the model. The source's `f64` percent can be one off from it, as the line above says, so the bound is not a promise about the source's output.
- Disks.UsedSpace: `total - free` is modelled with release-build wrap-around. A debug build panics when more space is free than the disk holds.
- The rest of the `get_system_info` text (CPU name, memory, swap, load): its values are library readings or floats. Only the disk totals and the uptime split are modelled.
- Processes.Row and the disk lines: the padded column text (`{:<8}`, `{:<10.1}`) is left abstract. A row holds the process it shows.
- Sorting.SortDesc: `sort_by` sorts a vector in place. The model returns a new sequence, proved to be the stable descending order.
- CPU values that are NaN: `partial_cmp` treats them as equal to everything. CPU usage here is an integer, so no such value exists.
- Text.ToLower: folds ASCII letters only, not the full Unicode mapping of `to_lowercase`.
- Processes.CommandText: cuts at byte 200 with one character per byte. The panic that `&s[..200]` raises in the middle of a multi-byte character is not modelled.
- Disks.DiskTotals: `+=` on `u64` is modelled with release-build wrap-around. A debug build panics on overflow instead.
- The git commit timestamp (chrono formatting) and the commit id text: both are given as strings.
- IPv6 addresses: given as the canonical text `Ipv6Addr` displays. The loopback test for them is that this text is `::1`.
- The battery, display and Bluetooth crates: not part of this model.
- The tool routers, the schema derivation and the `main` functions that start the servers: not part of this model.
