/**
 * `format_interfaces` of the network server: one block per interface with
 * its name (marked when it has a loopback address), its MAC address when it
 * has a real one, its IPv4 addresses with their netmasks and its IPv6
 * addresses other than link-local ones, then a summary of how many
 * interfaces there are and how many have addresses.
 */
module Network {
  import opened Base
  import opened Text

  type Octet = n: nat | n < 256

  /** An IPv4 address as its four octets. */
  datatype Ipv4 = Ipv4(a: Octet, b: Octet, c: Octet, d: Octet)

  /** The 32-bit value of an address, first octet most significant. */
  function Ipv4Value(ip: Ipv4): nat {
    ip.a * 0x100_0000 + ip.b * 0x1_0000 + ip.c * 0x100 + ip.d
  }

  /** The four octets as decimal text. */
  function OctetFields(ip: Ipv4): seq<string> {
    [NatToDecimal(ip.a), NatToDecimal(ip.b), NatToDecimal(ip.c), NatToDecimal(ip.d)]
  }

  /** Dotted-decimal text, as `Ipv4Addr` displays; it reads back as the address. */
  function Ipv4Text(ip: Ipv4): (r: string)
    ensures ParseIpv4(r) == Some(ip)
  {
    Ipv4TextRoundTrip(ip);
    Join(OctetFields(ip), ".")
  }

  /** One dotted-decimal field: non-empty digits whose value is below 256. */
  function ParseOctet(s: string): Option<Octet> {
    if |s| > 0 && AllDigits(s) && DecimalValue(s) < 256 then Some(DecimalValue(s)) else None
  }

  /** Reads dotted-decimal text: exactly four fields between dots, each an octet. */
  function ParseIpv4(text: string): Option<Ipv4> {
    var f := Split(text, '.');
    if |f| != 4 then None
    else
      match (ParseOctet(f[0]), ParseOctet(f[1]), ParseOctet(f[2]), ParseOctet(f[3]))
      case (Some(a), Some(b), Some(c), Some(d)) => Some(Ipv4(a, b, c, d))
      case _ => None
  }

  lemma Ipv4TextRoundTrip(ip: Ipv4)
    ensures ParseIpv4(Join(OctetFields(ip), ".")) == Some(ip)
  {
    var f := OctetFields(ip);
    forall i | 0 <= i < 4
      ensures '.' !in f[i]
    {
      assert AllDigits(f[i]);
    }
    SplitJoin(f, '.');
    DecimalRoundTrip(ip.a);
    DecimalRoundTrip(ip.b);
    DecimalRoundTrip(ip.c);
    DecimalRoundTrip(ip.d);
  }

  /**
   * An interface address. An IPv6 address is kept as the canonical text
   * `Ipv6Addr` displays (the compressed form of section 4 of RFC 5952).
   */
  datatype Addr = V4(ip: Ipv4, netmask: Option<Ipv4>) | V6(text: string)

  /**
   * `is_loopback`: an IPv4 address whose 32-bit value lies in 127.0.0.0/8,
   * or the IPv6 address `::1`.
   */
  predicate AddrLoopback(addr: Addr)
    ensures addr.V4? ==> (AddrLoopback(addr) <==> 0x7F00_0000 <= Ipv4Value(addr.ip) < 0x8000_0000)
    ensures addr.V6? ==> (AddrLoopback(addr) <==> addr.text == "::1")
  {
    OctetsBelowFirst(addr);
    match addr
    case V4(ip, _) => ip.a == 127
    case V6(text) => text == "::1"
  }

  /** The last three octets add less than one unit of the first. */
  lemma OctetsBelowFirst(addr: Addr)
    ensures addr.V4? ==> addr.ip.a * 0x100_0000 <= Ipv4Value(addr.ip) < (addr.ip.a + 1) * 0x100_0000
  {
  }

  datatype NetworkInterface = NetworkInterface(name: string, macAddr: Option<string>, addrs: seq<Addr>)

  /** `addr.iter().any(is_loopback)`. */
  function AnyLoopback(addrs: seq<Addr>): (r: bool)
    ensures r <==> exists i :: 0 <= i < |addrs| && AddrLoopback(addrs[i])
  {
    if |addrs| == 0 then false
    else
      assert forall i :: 1 <= i < |addrs| ==> addrs[i] == addrs[1..][i - 1];
      AddrLoopback(addrs[0]) || AnyLoopback(addrs[1..])
  }

  const NullMac: string := "00:00:00:00:00:00"

  /** A MAC address is shown when present, non-empty and not all zeros. */
  predicate ShowsMac(mac: Option<string>) {
    mac.Some? && mac.value != "" && mac.value != NullMac
  }

  /** Link-local IPv6 addresses, whose text starts with "fe80", are not shown. */
  predicate LinkLocal(text: string) {
    "fe80" <= text
  }

  datatype NetLine =
    | NetTitle
    | NoInterfaces
    | InterfaceName(name: string, loopback: bool)
    | MacLine(mac: string)
    | Ipv4Line(ip: string, netmask: Option<string>)
    | Ipv6Line(ip: string)
    | InterfaceEnd
    | Summary(total: nat, active: nat)

  /** The text of one line; each ends in a newline, so the report splits back into its lines. */
  function RenderNetLine(line: NetLine): (r: string)
    ensures |r| > 0 && r[|r| - 1] == '\n'
  {
    match line
    case NetTitle => "Network Interfaces:\n\n"
    case NoInterfaces => "No network interfaces found.\n"
    case InterfaceName(name, loopback) => name + (if loopback then " (loopback)" else "") + "\n"
    case MacLine(mac) => "  MAC: " + mac + "\n"
    case Ipv4Line(ip, netmask) => "  IPv4: " + ip + (if netmask.Some? then " / " + netmask.value else "") + "\n"
    case Ipv6Line(ip) => "  IPv6: " + ip + "\n"
    case InterfaceEnd => "\n"
    case Summary(total, active) =>
      "Total interfaces: " + NatToDecimal(total) + " (" + NatToDecimal(active) + " with addresses)\n"
  }

  /** The lines one address contributes: an IPv4 line always, an IPv6 line unless link-local. */
  function AddrLine(addr: Addr): seq<NetLine> {
    match addr
    case V4(ip, netmask) =>
      [Ipv4Line(Ipv4Text(ip), if netmask.Some? then Some(Ipv4Text(netmask.value)) else None)]
    case V6(text) => if LinkLocal(text) then [] else [Ipv6Line(text)]
  }

  /** The address lines of an interface: at most one per address. */
  function AddrLines(addrs: seq<Addr>): (r: seq<NetLine>)
    ensures |r| <= |addrs|
  {
    if |addrs| == 0 then [] else AddrLines(addrs[..|addrs| - 1]) + AddrLine(addrs[|addrs| - 1])
  }

  function MacLines(mac: Option<string>): seq<NetLine> {
    if ShowsMac(mac) then [MacLine(mac.value)] else []
  }

  /** One interface's block: the name line, the MAC line if shown, the address lines, a blank line. */
  function Block(iface: NetworkInterface): seq<NetLine> {
    [InterfaceName(iface.name, AnyLoopback(iface.addrs))] + MacLines(iface.macAddr) + AddrLines(iface.addrs) + [InterfaceEnd]
  }

  /** The blocks in order; they hold no title, "none found" or summary line. */
  function Blocks(ifaces: seq<NetworkInterface>): (r: seq<NetLine>)
    ensures forall i :: 0 <= i < |r| ==> !r[i].NetTitle? && !r[i].NoInterfaces? && !r[i].Summary?
  {
    if |ifaces| == 0 then []
    else
      BlockShape(ifaces[|ifaces| - 1]);
      Blocks(ifaces[..|ifaces| - 1]) + Block(ifaces[|ifaces| - 1])
  }

  /** `filter(|i| !i.addr.is_empty()).count()`. */
  function ActiveCount(ifaces: seq<NetworkInterface>): (n: nat)
    ensures n <= |ifaces|
  {
    if |ifaces| == 0 then 0
    else ActiveCount(ifaces[..|ifaces| - 1]) + (if |ifaces[|ifaces| - 1].addrs| > 0 then 1 else 0)
  }

  /**
   * The report: the title once, at the top; "none found" exactly when there
   * are no interfaces; otherwise one summary line, last, counting all
   * interfaces and the active ones.
   */
  function Report(ifaces: seq<NetworkInterface>): (r: seq<NetLine>)
    ensures |r| >= 2 && r[0] == NetTitle && forall i :: 0 < i < |r| ==> !r[i].NetTitle?
    ensures NoInterfaces in r <==> |ifaces| == 0
    ensures |ifaces| > 0 ==> r[|r| - 1] == Summary(|ifaces|, ActiveCount(ifaces))
    ensures forall i :: 0 <= i < |r| - 1 ==> !r[i].Summary?
  {
    if |ifaces| == 0 then [NetTitle, NoInterfaces]
    else [NetTitle] + Blocks(ifaces) + [Summary(|ifaces|, ActiveCount(ifaces))]
  }

  // ---- the loops of `format_interfaces` ----

  /** The address loop of one interface. */
  method AppendAddrs(lines: seq<NetLine>, addrs: seq<Addr>) returns (out: seq<NetLine>)
    ensures out == lines + AddrLines(addrs)
  {
    out := lines;
    for i := 0 to |addrs|
      invariant out == lines + AddrLines(addrs[..i])
    {
      AddrLinesStep(addrs, i, lines);
      match addrs[i]
      case V4(ip, netmask) =>
        var text := Ipv4Text(ip);
        var mask := if netmask.Some? then Some(Ipv4Text(netmask.value)) else None;
        out := out + [Ipv4Line(text, mask)];
      case V6(text) =>
        if !LinkLocal(text) {
          out := out + [Ipv6Line(text)];
        }
    }
    assert addrs[..|addrs|] == addrs;
  }

  lemma AddrLinesStep(addrs: seq<Addr>, i: nat, prefix: seq<NetLine>)
    requires i < |addrs|
    ensures prefix + AddrLines(addrs[..i + 1]) == prefix + AddrLines(addrs[..i]) + AddrLine(addrs[i])
  {
    assert addrs[..i + 1][..i] == addrs[..i];
  }

  /** The body of the interface loop. */
  method AppendInterface(lines: seq<NetLine>, iface: NetworkInterface) returns (out: seq<NetLine>)
    ensures out == lines + Block(iface)
  {
    var loopback := AnyLoopback(iface.addrs);
    out := lines + [InterfaceName(iface.name, loopback)];
    if iface.macAddr.Some? {
      var mac := iface.macAddr.value;
      if mac != "" && mac != NullMac {
        out := out + [MacLine(mac)];
      }
    }
    ghost var name, macs := [InterfaceName(iface.name, loopback)], MacLines(iface.macAddr);
    assert out == lines + name + macs;
    out := AppendAddrs(out, iface.addrs);
    out := out + [InterfaceEnd];
    assert Block(iface) == name + macs + AddrLines(iface.addrs) + [InterfaceEnd];
    Regroup(lines, name, macs, AddrLines(iface.addrs), [InterfaceEnd]);
  }

  lemma Regroup(a: seq<NetLine>, b: seq<NetLine>, c: seq<NetLine>, d: seq<NetLine>, e: seq<NetLine>)
    ensures a + b + c + d + e == a + (b + c + d + e)
  {
  }

  lemma BlocksStep(ifaces: seq<NetworkInterface>, i: nat, prefix: seq<NetLine>)
    requires i < |ifaces|
    ensures prefix + Blocks(ifaces[..i + 1]) == prefix + Blocks(ifaces[..i]) + Block(ifaces[i])
  {
    assert ifaces[..i + 1][..i] == ifaces[..i];
  }

  /** `format_interfaces`, pushing the report line by line. */
  method FormatInterfaces(ifaces: seq<NetworkInterface>) returns (lines: seq<NetLine>)
    ensures lines == Report(ifaces)
  {
    lines := [NetTitle];
    if |ifaces| == 0 {
      lines := lines + [NoInterfaces];
      return;
    }
    for i := 0 to |ifaces|
      invariant lines == [NetTitle] + Blocks(ifaces[..i])
    {
      BlocksStep(ifaces, i, [NetTitle]);
      lines := AppendInterface(lines, ifaces[i]);
    }
    assert ifaces[..|ifaces|] == ifaces;
    lines := lines + [Summary(|ifaces|, ActiveCount(ifaces))];
  }

  /** `get_interfaces`: a failure to list the interfaces is reported; otherwise the formatted report. */
  method GetInterfaces(listed: Result<seq<NetworkInterface>>) returns (r: Result<seq<NetLine>>)
    ensures listed.Err? ==> r == Err("Failed to get network interfaces: " + listed.message)
    ensures listed.Ok? ==> r == Ok(Report(listed.value))
  {
    match listed
    case Err(e) =>
      r := Err("Failed to get network interfaces: " + e);
    case Ok(ifaces) =>
      var lines := FormatInterfaces(ifaces);
      r := Ok(lines);
  }

  // ---- what the report shows ----

  /** No interfaces: exactly the title and "none found", and no summary. */
  lemma EmptyReport(ifaces: seq<NetworkInterface>)
    ensures Report(ifaces) == [NetTitle, NoInterfaces] <==> |ifaces| == 0
    ensures (exists k :: HasSummaryAt(Report(ifaces), k)) <==> |ifaces| > 0
  {
    if |ifaces| > 0 {
      var r := Report(ifaces);
      assert HasSummaryAt(r, |r| - 1);
      assert r[|r| - 1] != NoInterfaces;
    } else {
      var r := Report(ifaces);
      assert !HasSummaryAt(r, 0) && !HasSummaryAt(r, 1);
    }
  }

  predicate HasSummaryAt(lines: seq<NetLine>, k: int) {
    0 <= k < |lines| && lines[k].Summary?
  }

  /** The active count is the number of interfaces with at least one address. */
  lemma {:induction false} ActiveCountMeaning(ifaces: seq<NetworkInterface>)
    ensures ActiveCount(ifaces) == 0 <==> forall i :: 0 <= i < |ifaces| ==> |ifaces[i].addrs| == 0
    ensures ActiveCount(ifaces) == |ifaces| <==> forall i :: 0 <= i < |ifaces| ==> |ifaces[i].addrs| > 0
  {
    if |ifaces| > 0 {
      var init := ifaces[..|ifaces| - 1];
      ActiveCountMeaning(init);
      assert forall i :: 0 <= i < |init| ==> init[i] == ifaces[i];
    }
  }

  /**
   * One interface's block: its name line first, a blank line last, and only
   * the MAC line and address lines between them.
   */
  lemma BlockShape(iface: NetworkInterface)
    ensures var r := Block(iface);
      && 2 <= |r| <= |iface.addrs| + 3
      && r[0].InterfaceName? && r[0].name == iface.name && r[|r| - 1] == InterfaceEnd
      && forall i :: 0 < i < |r| - 1 ==> r[i].MacLine? || r[i].Ipv4Line? || r[i].Ipv6Line?
  {
    AddrLinesOnlyAddresses(iface.addrs);
  }

  /** The name line is marked as loopback exactly when one of the addresses is a loopback address. */
  lemma LoopbackMarker(iface: NetworkInterface)
    ensures Block(iface)[0] == InterfaceName(iface.name, Block(iface)[0].loopback)
    ensures Block(iface)[0].loopback <==> exists i :: 0 <= i < |iface.addrs| && AddrLoopback(iface.addrs[i])
  {
  }

  /** A MAC line appears exactly when the MAC is present, non-empty and not all zeros. */
  lemma MacShown(iface: NetworkInterface, m: string)
    ensures MacLine(m) in Block(iface) <==> iface.macAddr == Some(m) && m != "" && m != NullMac
  {
    var b := Block(iface);
    var head, macs, addrs := [InterfaceName(iface.name, AnyLoopback(iface.addrs))], MacLines(iface.macAddr), AddrLines(iface.addrs);
    assert b == head + macs + addrs + [InterfaceEnd];
    AddrLinesOnlyAddresses(iface.addrs);
    if MacLine(m) in b {
      assert MacLine(m) in macs;
    }
  }

  /** Address lines are IPv4 and IPv6 lines only. */
  lemma {:induction false} AddrLinesOnlyAddresses(addrs: seq<Addr>)
    ensures forall i :: 0 <= i < |AddrLines(addrs)| ==> AddrLines(addrs)[i].Ipv4Line? || AddrLines(addrs)[i].Ipv6Line?
  {
    if |addrs| > 0 {
      AddrLinesOnlyAddresses(addrs[..|addrs| - 1]);
    }
  }

  /**
   * Every IPv4 address is listed, with its netmask exactly when it has one;
   * an IPv6 text is listed exactly when some address has it and it is not
   * link-local.
   */
  lemma {:induction false} AddressesShown(addrs: seq<Addr>)
    ensures forall i :: 0 <= i < |addrs| && addrs[i].V4? ==>
      var a := addrs[i];
      Ipv4Line(Ipv4Text(a.ip), if a.netmask.Some? then Some(Ipv4Text(a.netmask.value)) else None) in AddrLines(addrs)
    ensures forall t :: Ipv6Line(t) in AddrLines(addrs) <==> V6(t) in addrs && !LinkLocal(t)
  {
    if |addrs| > 0 {
      var init, last := addrs[..|addrs| - 1], addrs[|addrs| - 1];
      AddressesShown(init);
      assert addrs == init + [last];
      forall t ensures V6(t) in addrs <==> V6(t) in init || V6(t) == last {
      }
    }
  }
}
