/**
 * The report loop of `get_usb_devices`: every device gets a numbered block
 * headed by its product name (or, lacking one, its vendor and product ids
 * in hex), with its manufacturer and serial number when it has them, its
 * ids, and its bus position; the report ends with the device count, or
 * says that there are no devices.
 */
module Usb {
  import opened Base
  import opened Text

  type U16 = n: nat | n < 0x10000

  /** A device as the USB library describes it; absent strings are `None`. */
  datatype Device = Device(
    vendorId: U16, productId: U16,
    manufacturer: Option<string>, product: Option<string>, serial: Option<string>,
    busNumber: nat, deviceAddress: nat)

  /** `{:04x}:{:04x}` of the two ids. */
  function IdPair(d: Device): string {
    Hex4(d.vendorId) + ":" + Hex4(d.productId)
  }

  /** The product string when it is non-empty, otherwise "Device vvvv:pppp". */
  function DisplayName(d: Device): (name: string)
    ensures d.product.GetOr("") != "" ==> name == d.product.value
    ensures d.product.GetOr("") == "" ==> name == "Device " + IdPair(d)
  {
    var product := d.product.GetOr("");
    if product != "" then product else "Device " + IdPair(d)
  }

  /** The fallback name carries both ids, each as four lower-case hex digits that read back as the id. */
  lemma FallbackNameIds(d: Device)
    requires d.product.GetOr("") == ""
    ensures var name := DisplayName(d);
      |name| == 16 && name[..7] == "Device " && name[11] == ':'
      && (forall i :: 7 <= i < 16 && i != 11 ==> IsLowerHexDigit(name[i]))
      && HexValue(name[7..11]) == d.vendorId && HexValue(name[12..]) == d.productId
  {
    var name := DisplayName(d);
    assert name[7..11] == Hex4(d.vendorId);
    assert name[12..] == Hex4(d.productId);
    HexDigitsRoundTrip(d.vendorId, 4);
    HexDigitsRoundTrip(d.productId, 4);
  }

  datatype UsbLine =
    | UsbTitle
    | DeviceName(number: nat, name: string)
    | ManufacturerLine(manufacturer: string)
    | IdsLine(vendorId: U16, productId: U16)
    | SerialLine(serial: string)
    | BusLine(bus: nat, address: nat)
    | DeviceEnd
    | NoDevices
    | DeviceTotal(count: nat)

  /** The text of one line; each ends in a newline, so the report splits back into its lines. */
  function RenderUsbLine(line: UsbLine): (r: string)
    ensures |r| > 0 && r[|r| - 1] == '\n'
  {
    match line
    case UsbTitle => "USB Devices:\n\n"
    case DeviceName(number, name) => NatToDecimal(number) + ". " + name + "\n"
    case ManufacturerLine(m) => "   Manufacturer: " + m + "\n"
    case IdsLine(v, p) => "   Vendor ID: " + Hex4(v) + ", Product ID: " + Hex4(p) + "\n"
    case SerialLine(s) => "   Serial: " + s + "\n"
    case BusLine(bus, address) => "   Bus: " + NatToDecimal(bus) + ", Device: " + NatToDecimal(address) + "\n"
    case DeviceEnd => "\n"
    case NoDevices => "No USB devices found.\n"
    case DeviceTotal(count) => "Total: " + NatToDecimal(count) + " USB devices\n"
  }

  /** The ids line always shows both ids as four lower-case hex digits each. */
  lemma IdsLineText(v: U16, p: U16)
    ensures var t := RenderUsbLine(IdsLine(v, p));
      |t| == 37 && t[..14] == "   Vendor ID: " && t[18..32] == ", Product ID: " && t[36] == '\n'
      && HexValue(t[14..18]) == v && HexValue(t[32..36]) == p
  {
    var t := RenderUsbLine(IdsLine(v, p));
    assert t[14..18] == Hex4(v);
    assert t[32..36] == Hex4(p);
    HexDigitsRoundTrip(v, 4);
    HexDigitsRoundTrip(p, 4);
  }

  /** The manufacturer line, present only when the manufacturer string is non-empty. */
  function ManufacturerLines(d: Device): seq<UsbLine> {
    if d.manufacturer.GetOr("") != "" then [ManufacturerLine(d.manufacturer.value)] else []
  }

  /** The serial line, present only when the serial number is non-empty. */
  function SerialLines(d: Device): seq<UsbLine> {
    if d.serial.GetOr("") != "" then [SerialLine(d.serial.value)] else []
  }

  /** The block of the device numbered `number`. */
  function DeviceBlock(d: Device, number: nat): seq<UsbLine> {
    [DeviceName(number, DisplayName(d))]
    + ManufacturerLines(d)
    + [IdsLine(d.vendorId, d.productId)]
    + SerialLines(d)
    + [BusLine(d.busNumber, d.deviceAddress), DeviceEnd]
  }

  /**
   * A device's block: its name line first and no other, then the lines
   * about that device, a blank line last.
   */
  lemma BlockShape(d: Device, number: nat)
    ensures var r := DeviceBlock(d, number);
      && 4 <= |r| <= 6
      && r[0] == DeviceName(number, DisplayName(d)) && r[|r| - 1] == DeviceEnd
      && forall i :: 0 < i < |r| ==> !r[i].DeviceName? && !r[i].UsbTitle? && !r[i].NoDevices? && !r[i].DeviceTotal?
  {
  }

  /** The blocks of all devices, numbered from 1 in enumeration order; they hold no title or ending line. */
  function DeviceBlocks(devices: seq<Device>): (r: seq<UsbLine>)
    ensures forall i :: 0 <= i < |r| ==> !r[i].UsbTitle? && !r[i].NoDevices? && !r[i].DeviceTotal?
  {
    if |devices| == 0 then []
    else
      BlockShape(devices[|devices| - 1], |devices|);
      DeviceBlocks(devices[..|devices| - 1]) + DeviceBlock(devices[|devices| - 1], |devices|)
  }

  /**
   * The report: the title once, at the top; "No USB devices found."
   * exactly when there are no devices; otherwise a total, last, that
   * counts them all.
   */
  function Report(devices: seq<Device>): (r: seq<UsbLine>)
    ensures |r| >= 2 && r[0] == UsbTitle && forall i :: 0 < i < |r| ==> !r[i].UsbTitle?
    ensures NoDevices in r <==> |devices| == 0
    ensures forall k :: DeviceTotal(k) in r <==> |devices| > 0 && k == |devices|
    ensures |devices| > 0 ==> r[|r| - 1] == DeviceTotal(|devices|)
  {
    [UsbTitle] + DeviceBlocks(devices) + (if |devices| == 0 then [NoDevices] else [DeviceTotal(|devices|)])
  }

  /** The body of the device loop, for the device numbered `count`. */
  method AppendDevice(lines: seq<UsbLine>, d: Device, count: nat) returns (out: seq<UsbLine>)
    ensures out == lines + DeviceBlock(d, count)
  {
    var manufacturer := d.manufacturer.GetOr("");
    var product := d.product.GetOr("");
    var serial := d.serial.GetOr("");
    var name := if product != "" then product else "Device " + IdPair(d);
    out := lines + [DeviceName(count, name)];
    if manufacturer != "" {
      out := out + [ManufacturerLine(manufacturer)];
    }
    out := out + [IdsLine(d.vendorId, d.productId)];
    if serial != "" {
      out := out + [SerialLine(serial)];
    }
    out := out + [BusLine(d.busNumber, d.deviceAddress), DeviceEnd];
  }

  lemma BlocksStep(devices: seq<Device>, i: nat, prefix: seq<UsbLine>)
    requires i < |devices|
    ensures prefix + DeviceBlocks(devices[..i + 1]) == prefix + DeviceBlocks(devices[..i]) + DeviceBlock(devices[i], i + 1)
  {
    assert devices[..i + 1][..i] == devices[..i];
  }

  /**
   * The report loop: the counter goes up by one per device, so it numbers
   * the devices 1, 2, ... and ends at the number of devices.
   */
  method ReportDevices(devices: seq<Device>) returns (lines: seq<UsbLine>)
    ensures lines == Report(devices)
  {
    lines := [UsbTitle];
    var count := 0;
    for i := 0 to |devices|
      invariant count == i
      invariant lines == [UsbTitle] + DeviceBlocks(devices[..i])
    {
      count := count + 1;
      BlocksStep(devices, i, [UsbTitle]);
      lines := AppendDevice(lines, devices[i], count);
    }
    assert devices[..|devices|] == devices;
    if count == 0 {
      lines := lines + [NoDevices];
    } else {
      lines := lines + [DeviceTotal(count)];
    }
  }

  /** `get_usb_devices`: a failure to list the devices is reported; otherwise the report. */
  method GetUsbDevices(listed: Result<seq<Device>>) returns (r: Result<seq<UsbLine>>)
    ensures listed.Err? ==> r == Err("Failed to list USB devices: " + listed.message)
    ensures listed.Ok? ==> r == Ok(Report(listed.value))
  {
    match listed
    case Err(e) =>
      r := Err("Failed to list USB devices: " + e);
    case Ok(devices) =>
      var lines := ReportDevices(devices);
      r := Ok(lines);
  }

  // ---- what the report shows ----

  /** The name lines among report lines, in order. */
  function Names(lines: seq<UsbLine>): seq<UsbLine> {
    if |lines| == 0 then []
    else Names(lines[..|lines| - 1]) + (if lines[|lines| - 1].DeviceName? then [lines[|lines| - 1]] else [])
  }

  lemma {:induction false} NamesAppend(a: seq<UsbLine>, b: seq<UsbLine>)
    ensures Names(a + b) == Names(a) + Names(b)
  {
    if |b| == 0 {
      assert a + b == a;
    } else {
      assert (a + b)[..|a + b| - 1] == a + b[..|b| - 1];
      NamesAppend(a, b[..|b| - 1]);
    }
  }

  /** Names of lines none of which is a name line. */
  lemma {:induction false} NamesNone(lines: seq<UsbLine>)
    requires forall i :: 0 <= i < |lines| ==> !lines[i].DeviceName?
    ensures Names(lines) == []
  {
    if |lines| > 0 {
      NamesNone(lines[..|lines| - 1]);
    }
  }

  lemma NamesOfBlock(d: Device, number: nat)
    ensures Names(DeviceBlock(d, number)) == [DeviceName(number, DisplayName(d))]
  {
    BlockShape(d, number);
    var head := [DeviceName(number, DisplayName(d))];
    var rest := DeviceBlock(d, number)[1..];
    assert DeviceBlock(d, number) == head + rest;
    NamesNone(rest);
    NamesAppend(head, rest);
    assert Names(head) == Names([]) + head;
  }

  /** The name line of each device, numbered from 1 in order. */
  function NameLines(devices: seq<Device>): (r: seq<UsbLine>)
    ensures |r| == |devices|
    ensures forall i :: 0 <= i < |devices| ==> r[i] == DeviceName(i + 1, DisplayName(devices[i]))
  {
    if |devices| == 0 then [] else NameLines(devices[..|devices| - 1]) + [DeviceName(|devices|, DisplayName(devices[|devices| - 1]))]
  }

  lemma {:induction false} NamesOfBlocks(devices: seq<Device>)
    ensures Names(DeviceBlocks(devices)) == NameLines(devices)
  {
    if |devices| > 0 {
      var init, last := devices[..|devices| - 1], devices[|devices| - 1];
      NamesOfBlocks(init);
      NamesAppend(DeviceBlocks(init), DeviceBlock(last, |devices|));
      NamesOfBlock(last, |devices|);
    }
  }

  /** The report numbers the devices 1..n in enumeration order, one name line each. */
  lemma Numbering(devices: seq<Device>)
    ensures var names := Names(Report(devices));
      |names| == |devices|
      && forall i :: 0 <= i < |devices| ==> names[i] == DeviceName(i + 1, DisplayName(devices[i]))
  {
    var blocks := DeviceBlocks(devices);
    var tail := if |devices| == 0 then [NoDevices] else [DeviceTotal(|devices|)];
    NamesOfBlocks(devices);
    NamesNone([UsbTitle]);
    NamesNone(tail);
    NamesBetween([UsbTitle], blocks, tail);
  }

  lemma NamesBetween(head: seq<UsbLine>, mid: seq<UsbLine>, tail: seq<UsbLine>)
    requires Names(head) == [] && Names(tail) == []
    ensures Names(head + mid + tail) == Names(mid)
  {
    NamesAppend(head, mid);
    NamesAppend(head + mid, tail);
  }

  /** The manufacturer and serial lines appear exactly when those strings are present and non-empty. */
  lemma OptionalLines(d: Device, number: nat, s: string)
    ensures ManufacturerLine(s) in DeviceBlock(d, number) <==> d.manufacturer == Some(s) && s != ""
    ensures SerialLine(s) in DeviceBlock(d, number) <==> d.serial == Some(s) && s != ""
  {
    var b := DeviceBlock(d, number);
    var ms, ss := ManufacturerLines(d), SerialLines(d);
    assert b == [DeviceName(number, DisplayName(d))] + ms + [IdsLine(d.vendorId, d.productId)] + ss + [BusLine(d.busNumber, d.deviceAddress), DeviceEnd];
    if ManufacturerLine(s) in b {
      assert ManufacturerLine(s) in ms;
    }
    if SerialLine(s) in b {
      assert SerialLine(s) in ss;
    }
  }
}
