/**
 * Discovery of the I2C HID topology: which I2C controllers exist, which HID
 * devices hang off each, and which interrupt line each of them raises.
 *
 * Every filesystem read of the original is an input here: the text of the
 * interrupt-counter table, the entries of the `i2c_hid_acpi` driver
 * directory (a name and the target of its link), and the entries of the HID
 * bus directory (a name, the `uevent` text if it could be read, and the
 * input-device names that could be read).
 */
module Discovery {
  import opened Wrappers
  import opened Text

  type U8 = x: nat | x < 0x100
  type U16 = x: nat | x < 0x1_0000

  /** An I2C HID device. */
  datatype HidDevice = HidDevice(
    acpiName: string,
    vendorId: U16,
    productId: U16,
    deviceType: string,
    driver: string,
    busNum: U8,
    controller: string,
    gpioIrq: Option<string>,
    inputNames: seq<string>)

  /** An I2C controller and the HID devices attached to it. */
  datatype I2cController = I2cController(
    name: string,
    busNum: U8,
    irq: Option<string>,
    hidDevices: seq<HidDevice>)

  /** The discovered topology, with the two IRQ maps read off the counter table. */
  datatype I2cTopology = I2cTopology(
    controllers: seq<I2cController>,
    gpioIrqs: map<string, string>,
    controllerIrqs: map<string, string>)

  /** One row of the hierarchical display. */
  datatype InterruptSourceInfo = InterruptSourceInfo(
    irq: string,
    name: string,
    deviceType: string,
    isController: bool,
    parentController: Option<string>,
    indentLevel: nat)

  // ------------------------------------------------------------------
  // String extractors
  // ------------------------------------------------------------------

  /** What an ACPI device name in the counter table looks like, e.g. `PIXA3854:00`. */
  predicate IsAcpiToken(part: string) {
    && ':' in part
    && 'A' <= part[0] <= 'Z'
    && !Contains(part, "IR-")
    && !Contains(part, "PCI-")
  }

  /**
   * `extract_acpi_name`: the last whitespace-separated token of the line
   * that looks like an ACPI device name, or nothing if none does.
   */
  function ExtractAcpiName(line: string): (r: Option<string>)
    ensures r.None? ==> forall i :: 0 <= i < |Words(line)| ==> !IsAcpiToken(Words(line)[i])
    ensures r.Some? ==>
      exists i :: 0 <= i < |Words(line)| && Words(line)[i] == r.value && IsAcpiToken(r.value)
        && forall j :: i < j < |Words(line)| ==> !IsAcpiToken(Words(line)[j])
  {
    var parts := Words(line);
    var k := LastMatch(parts, IsAcpiToken);
    if k < |parts| then
      Some(parts[k])
    else None
  }

  predicate IsControllerSegment(part: string) {
    "i2c_designware." <= part
  }

  /**
   * `extract_controller_name`: the first `/`-separated segment of the link
   * target that names a DesignWare I2C controller, else `unknown`.
   */
  function ExtractControllerName(path: string): (r: string)
    ensures r == "unknown" || IsControllerSegment(r)
    ensures (forall i :: 0 <= i < |Split(path, '/')| ==> !IsControllerSegment(Split(path, '/')[i])) ==> r == "unknown"
    ensures forall i :: 0 <= i < |Split(path, '/')| && IsControllerSegment(Split(path, '/')[i]) ==>
      exists j :: 0 <= j <= i && Split(path, '/')[j] == r && IsControllerSegment(r)
        && forall l :: 0 <= l < j ==> !IsControllerSegment(Split(path, '/')[l])
  {
    var parts := Split(path, '/');
    var k := FirstMatch(parts, IsControllerSegment);
    if k < |parts| then parts[k] else "unknown"
  }

  /** The bus number a segment `i2c-N` names, if `N` is a `u8`. */
  function SegmentBusNum(part: string): Option<nat> {
    match StripPrefix(part, "i2c-")
    case Some(digits) => ParseUnsigned(digits, 10, 0x100)
    case None => None
  }

  predicate IsBusSegment(part: string) {
    SegmentBusNum(part).Some?
  }

  /**
   * `extract_bus_num`: the number of the first `/`-separated segment
   * `i2c-N` whose `N` is a `u8`; 0 when no segment is one.
   */
  function ExtractBusNum(path: string): (r: U8)
    ensures (forall i :: 0 <= i < |Split(path, '/')| ==> !IsBusSegment(Split(path, '/')[i])) ==> r == 0
    ensures forall i :: 0 <= i < |Split(path, '/')| && IsBusSegment(Split(path, '/')[i]) ==>
      exists j :: 0 <= j <= i && SegmentBusNum(Split(path, '/')[j]) == Some(r)
        && forall l :: 0 <= l < j ==> !IsBusSegment(Split(path, '/')[l])
  {
    var parts := Split(path, '/');
    var k := FirstMatch(parts, IsBusSegment);
    if k < |parts| then SegmentBusNum(parts[k]).value else 0
  }

  // ------------------------------------------------------------------
  // The scan of the interrupt-counter table
  // ------------------------------------------------------------------

  /** The two maps the scan builds: ACPI name to GPIO IRQ, controller name to controller IRQ. */
  datatype IrqMaps = IrqMaps(gpio: map<string, string>, controllers: map<string, string>)

  /** The IRQ of a trimmed table line: the text before its first `:`, trimmed. */
  function LineIrq(t: string): string {
    Trim(Split(t, ':')[0])
  }

  predicate IsGpioLine(t: string) {
    Contains(t, "intel-gpio") || Contains(t, "pinctrl")
  }

  predicate IsControllerLine(t: string) {
    Contains(t, "i2c_designware")
  }

  /** A piece of a controller line that names a controller, trimmed. */
  function ControllerToken(part: string): Option<string> {
    if Contains(part, "i2c_designware") then Some(Trim(part)) else None
  }

  /** The separators a controller line is split at. */
  const ControllerSeparators: set<char> := {' ', ','}

  /** The controller names on a controller line, in order. */
  function ControllerKeys(t: string): seq<string> {
    FilterMap(SplitAny(t, ControllerSeparators), ControllerToken)
  }

  /** `m` with every key of `keys` mapped to `v`. */
  function InsertAll(m: map<string, string>, keys: seq<string>, v: string): map<string, string>
    decreases |keys|
  {
    if keys == [] then m
    else InsertAll(m, keys[..|keys| - 1], v)[keys[|keys| - 1] := v]
  }

  /** After inserting `keys`, each of them maps to `v`; every other key keeps its entry. */
  lemma {:induction false} InsertAllLookup(m: map<string, string>, keys: seq<string>, v: string, k: string)
    ensures Lookup(InsertAll(m, keys, v), k) == if k in keys then Some(v) else Lookup(m, k)
    decreases |keys|
  {
    if keys != [] {
      InsertAllLookup(m, keys[..|keys| - 1], v, k);
      assert k in keys <==> k in keys[..|keys| - 1] || k == keys[|keys| - 1];
    }
  }

  /** What a line contributes to the GPIO map: its ACPI name and its IRQ. */
  function GpioEntry(line: string): Option<(string, string)> {
    var t := Trim(line);
    if t != [] && IsGpioLine(t) then
      match ExtractAcpiName(t)
      case Some(acpi) => Some((acpi, LineIrq(t)))
      case None => None
    else None
  }

  /** One step of the scan. */
  function ScanLine(m: IrqMaps, line: string): IrqMaps {
    var t := Trim(line);
    if t == [] then m
    else
      var gpio := match GpioEntry(line)
        case Some(e) => m.gpio[e.0 := e.1]
        case None => m.gpio;
      var controllers := if IsControllerLine(t) then InsertAll(m.controllers, ControllerKeys(t), LineIrq(t)) else m.controllers;
      IrqMaps(gpio, controllers)
  }

  /** The maps the scan of `lines` builds (specification of `ScanInterruptTable`). */
  function TableMaps(lines: seq<string>): IrqMaps
    decreases |lines|
  {
    if lines == [] then IrqMaps(map[], map[])
    else ScanLine(TableMaps(lines[..|lines| - 1]), lines[|lines| - 1])
  }

  /**
   * The scan of the counter table inside `discover`: every GPIO line maps
   * its ACPI name to its IRQ, and every controller line maps each
   * controller named on it to its IRQ; later lines overwrite earlier ones.
   */
  method ScanInterruptTable(content: string) returns (maps: IrqMaps)
    ensures maps == TableMaps(Lines(content))
  {
    var lines := Lines(content);
    maps := IrqMaps(map[], map[]);
    var i := 0;
    while i < |lines|
      invariant 0 <= i <= |lines|
      invariant maps == TableMaps(lines[..i])
    {
      TableMapsStep(lines, i);
      maps := ScanOneLine(maps, lines[i]);
      i := i + 1;
    }
    assert lines[..i] == lines;
  }

  lemma TableMapsStep(lines: seq<string>, i: nat)
    requires i < |lines|
    ensures TableMaps(lines[..i + 1]) == ScanLine(TableMaps(lines[..i]), lines[i])
  {
    assert lines[..i + 1][..i] == lines[..i];
  }

  /** The body of the scan loop for one line. */
  method ScanOneLine(maps: IrqMaps, line: string) returns (next: IrqMaps)
    ensures next == ScanLine(maps, line)
  {
    var t := Trim(line);
    if t == [] {
      return maps;
    }
    var irq := Trim(Split(t, ':')[0]);
    var gpio := maps.gpio;
    var controllers := maps.controllers;
    if IsGpioLine(t) {
      var acpi := ExtractAcpiName(t);
      if acpi.Some? {
        gpio := gpio[acpi.value := irq];
      }
    }
    if IsControllerLine(t) {
      controllers := InsertControllers(controllers, t, irq);
    }
    return IrqMaps(gpio, controllers);
  }

  /** The inner loop over the pieces of a controller line. */
  method InsertControllers(m: map<string, string>, t: string, irq: string) returns (controllers: map<string, string>)
    ensures controllers == InsertAll(m, ControllerKeys(t), irq)
  {
    controllers := m;
    var parts := SplitAny(t, ControllerSeparators);
    var j := 0;
    while j < |parts|
      invariant 0 <= j <= |parts|
      invariant controllers == InsertAll(m, FilterMap(parts[..j], ControllerToken), irq)
    {
      InsertAllStep(m, parts, j, irq);
      if Contains(parts[j], "i2c_designware") {
        controllers := controllers[Trim(parts[j]) := irq];
      }
      j := j + 1;
    }
    assert parts[..j] == parts;
  }

  /** One more piece of the line: its controller name, if any, is inserted last. */
  lemma InsertAllStep(m: map<string, string>, parts: seq<string>, j: nat, irq: string)
    requires j < |parts|
    ensures InsertAll(m, FilterMap(parts[..j + 1], ControllerToken), irq)
         == match ControllerToken(parts[j])
            case Some(k) => InsertAll(m, FilterMap(parts[..j], ControllerToken), irq)[k := irq]
            case None => InsertAll(m, FilterMap(parts[..j], ControllerToken), irq)
  {
    assert parts[..j + 1][..j] == parts[..j];
    var keys := FilterMap(parts[..j], ControllerToken);
    match ControllerToken(parts[j])
    case Some(k) =>
      assert (keys + [k])[..|keys|] == keys;
    case None =>
      assert keys + [] == keys;
  }

  /** Whether `line` maps the GPIO of ACPI device `acpi`. */
  predicate MapsGpio(line: string, acpi: string) {
    GpioEntry(line).Some? && GpioEntry(line).value.0 == acpi
  }

  /** The GPIO IRQ of a device is the IRQ of the last GPIO line naming it; none if no line does. */
  lemma {:induction false} GpioIrqIsLastLine(lines: seq<string>, acpi: string)
    ensures var j := LastMatch(lines, (l: string) => MapsGpio(l, acpi));
      Lookup(TableMaps(lines).gpio, acpi) == if j < |lines| then Some(GpioEntry(lines[j]).value.1) else None
    decreases |lines|
  {
    if lines != [] {
      GpioIrqIsLastLine(lines[..|lines| - 1], acpi);
    }
  }

  /** Whether `line` maps controller `name`. */
  predicate MapsController(line: string, name: string) {
    var t := Trim(line);
    t != [] && IsControllerLine(t) && name in ControllerKeys(t)
  }

  /** The IRQ of a controller is the IRQ of the last controller line naming it; none if no line does. */
  lemma {:induction false} ControllerIrqIsLastLine(lines: seq<string>, name: string)
    ensures var j := LastMatch(lines, (l: string) => MapsController(l, name));
      Lookup(TableMaps(lines).controllers, name) == if j < |lines| then Some(LineIrq(Trim(lines[j]))) else None
    decreases |lines|
  {
    if lines != [] {
      ControllerIrqIsLastLine(lines[..|lines| - 1], name);
      var t := Trim(lines[|lines| - 1]);
      if t != [] && IsControllerLine(t) {
        InsertAllLookup(TableMaps(lines[..|lines| - 1]).controllers, ControllerKeys(t), LineIrq(t), name);
      }
    }
  }

  // ------------------------------------------------------------------
  // Device classification
  // ------------------------------------------------------------------

  /** The labels `determine_device_type` can give. */
  predicate IsDeviceLabel(kind: string) {
    kind in {"Touchpad", "Touchscreen", "Stylus", "Keyboard", "Sensor Hub",
              "Keyboard/Controls", "Input Device", "HID Device"}
  }

  /** The label one input-device name gives, tested in this order on its lower-cased form. */
  function NameLabel(name: string): (r: Option<string>)
    ensures r.Some? ==> r.value in {"Touchpad", "Touchscreen", "Stylus", "Keyboard"}
    ensures r == Some("Touchpad") <==> Contains(AsciiLower(name), "touchpad")
    ensures r == Some("Touchscreen") <==>
      !Contains(AsciiLower(name), "touchpad") && Contains(AsciiLower(name), "touchscreen")
    ensures r == Some("Stylus") <==>
      !Contains(AsciiLower(name), "touchpad") && !Contains(AsciiLower(name), "touchscreen")
      && (Contains(AsciiLower(name), "stylus") || Contains(AsciiLower(name), "pen"))
    ensures r == Some("Keyboard") <==>
      !Contains(AsciiLower(name), "touchpad") && !Contains(AsciiLower(name), "touchscreen")
      && !Contains(AsciiLower(name), "stylus") && !Contains(AsciiLower(name), "pen")
      && Contains(AsciiLower(name), "keyboard")
    ensures r.None? <==>
      !Contains(AsciiLower(name), "touchpad") && !Contains(AsciiLower(name), "touchscreen")
      && !Contains(AsciiLower(name), "stylus") && !Contains(AsciiLower(name), "pen")
      && !Contains(AsciiLower(name), "keyboard")
  {
    var lower := AsciiLower(name);
    if Contains(lower, "touchpad") then Some("Touchpad")
    else if Contains(lower, "touchscreen") then Some("Touchscreen")
    else if Contains(lower, "stylus") || Contains(lower, "pen") then Some("Stylus")
    else if Contains(lower, "keyboard") then Some("Keyboard")
    else None
  }

  predicate HasNameLabel(name: string) {
    NameLabel(name).Some?
  }

  /** `hid-generic` devices whose inputs are radio or consumer controls. */
  predicate IsControlsName(name: string) {
    Contains(name, "Radio") || Contains(name, "Consumer")
  }

  /** The label the driver gives when no input name decides. */
  function DriverLabel(driver: string, vendorId: U16, inputNames: seq<string>): (r: string)
    ensures IsDeviceLabel(r)
    ensures driver == "hid-multitouch" ==> r == (if vendorId == 0x093A then "Touchpad" else "Touchscreen")
    ensures driver == "hid-sensor-hub" ==> r == "Sensor Hub"
    ensures driver == "hid-generic" ==>
      r == (if exists i :: 0 <= i < |inputNames| && IsControlsName(inputNames[i]) then "Keyboard/Controls" else "Input Device")
    ensures driver !in {"hid-multitouch", "hid-sensor-hub", "hid-generic"} ==> r == "HID Device"
  {
    if driver == "hid-multitouch" then
      if vendorId == 0x093A then "Touchpad" else "Touchscreen"
    else if driver == "hid-sensor-hub" then "Sensor Hub"
    else if driver == "hid-generic" then
      if FirstMatch(inputNames, IsControlsName) < |inputNames| then "Keyboard/Controls" else "Input Device"
    else "HID Device"
  }

  /**
   * `determine_device_type`: the first input name that gives a label
   * decides; only when none does, the driver decides.
   */
  function DetermineDeviceType(device: HidDevice): (r: string)
    ensures IsDeviceLabel(r)
    ensures forall i :: 0 <= i < |device.inputNames| && HasNameLabel(device.inputNames[i]) ==>
      exists j :: 0 <= j <= i && Some(r) == NameLabel(device.inputNames[j])
        && forall l :: 0 <= l < j ==> !HasNameLabel(device.inputNames[l])
    ensures (forall i :: 0 <= i < |device.inputNames| ==> !HasNameLabel(device.inputNames[i])) ==>
      r == DriverLabel(device.driver, device.vendorId, device.inputNames)
  {
    var names := device.inputNames;
    var k := FirstMatch(names, HasNameLabel);
    if k < |names| then NameLabel(names[k]).value
    else DriverLabel(device.driver, device.vendorId, names)
  }

  /** Input names take precedence: with one that gives a label, driver and vendor do not matter. */
  lemma InputNamesDecide(device: HidDevice, driver: string, vendorId: U16)
    requires exists i :: 0 <= i < |device.inputNames| && HasNameLabel(device.inputNames[i])
    ensures DetermineDeviceType(device.(driver := driver, vendorId := vendorId)) == DetermineDeviceType(device)
  {
  }

  // ------------------------------------------------------------------
  // A HID device's details
  // ------------------------------------------------------------------

  /** An entry of the HID bus directory: its name, its `uevent` text if readable, its readable input names. */
  datatype HidEntry = HidEntry(name: string, uevent: Option<string>, inputNames: seq<Option<string>>)

  /** `u16::from_str_radix(s, 16).unwrap_or(0)` */
  function Hex16(s: string): (r: U16)
    ensures ParseUnsigned(s, 16, 0x1_0000).Some? ==> r == ParseUnsigned(s, 16, 0x1_0000).value
    ensures ParseUnsigned(s, 16, 0x1_0000).None? ==> r == 0
  {
    ParseUnsigned(s, 16, 0x1_0000).GetOr(0)
  }

  /** Vendor and product id from a HID device name `BBBB:VVVV:PPPP.NNNN`; zeros when it has fewer than three fields. */
  function HidIds(name: string): (U16, U16) {
    var parts := Split(name, ':');
    if |parts| >= 3 then (Hex16(parts[1]), Hex16(Split(parts[2], '.')[0])) else (0, 0)
  }

  predicate IsDriverLine(line: string) {
    "DRIVER=" <= line
  }

  /** The driver a `uevent` names: the value of its last `DRIVER=` line, or empty. */
  function DriverAmong(lines: seq<string>): (r: string)
    ensures var j := LastMatch(lines, IsDriverLine); r == if j < |lines| then lines[j][7..] else ""
    decreases |lines|
  {
    if lines == [] then ""
    else if IsDriverLine(lines[|lines| - 1]) then lines[|lines| - 1][7..]
    else DriverAmong(lines[..|lines| - 1])
  }

  /** The input names that could be read, trimmed, in order. */
  function InputNames(files: seq<Option<string>>): seq<string> {
    FilterMap(files, (f: Option<string>) => match f case Some(n) => Some(Trim(n)) case None => None)
  }

  /** The HID entry of ACPI device `acpi`: an I2C HID device whose readable `uevent` mentions it. */
  predicate IsHidMatch(e: HidEntry, acpi: string) {
    "0018:" <= e.name && e.uevent.Some? && Contains(e.uevent.value, acpi)
  }

  /** The record before any HID entry is looked at. */
  function BaseDevice(acpi: string, controller: string, busNum: U8, gpioIrqs: map<string, string>): HidDevice {
    HidDevice(acpi, 0, 0, "Unknown", "", busNum, controller, Lookup(gpioIrqs, acpi), [])
  }

  /** The record filled in from a matching HID entry. */
  function FillFromEntry(device: HidDevice, e: HidEntry): HidDevice
    requires e.uevent.Some?
  {
    var ids := HidIds(e.name);
    device.(vendorId := ids.0, productId := ids.1,
            driver := DriverAmong(Lines(e.uevent.value)), inputNames := InputNames(e.inputNames))
  }

  /** The device `discover_hid_device` yields (specification of `DiscoverHidDevice`). */
  function HidDeviceOf(acpi: string, controller: string, busNum: U8, gpioIrqs: map<string, string>,
                       entries: seq<HidEntry>): HidDevice
  {
    var base := BaseDevice(acpi, controller, busNum, gpioIrqs);
    var k := FirstMatch(entries, (e: HidEntry) => IsHidMatch(e, acpi));
    var filled := if k < |entries| then FillFromEntry(base, entries[k]) else base;
    filled.(deviceType := DetermineDeviceType(filled))
  }

  /** The fields that come from the caller and from the GPIO map, whatever the HID entries hold. */
  lemma HidDeviceOfKeeps(acpi: string, controller: string, busNum: U8, gpioIrqs: map<string, string>,
                         entries: seq<HidEntry>)
    ensures var d := HidDeviceOf(acpi, controller, busNum, gpioIrqs, entries);
      d.acpiName == acpi && d.controller == controller && d.busNum == busNum && d.gpioIrq == Lookup(gpioIrqs, acpi)
      && IsDeviceLabel(d.deviceType)
  {
  }

  /**
   * `discover_hid_device`: the GPIO IRQ comes from the map; ids, driver and
   * input names from the first matching HID entry, if there is one; the
   * type is decided last, from what was found.
   */
  method DiscoverHidDevice(acpi: string, controller: string, busNum: U8, gpioIrqs: map<string, string>,
                           entries: seq<HidEntry>) returns (device: HidDevice)
    ensures device == HidDeviceOf(acpi, controller, busNum, gpioIrqs, entries)
  {
    device := HidDevice(acpi, 0, 0, "Unknown", "", busNum, controller, Lookup(gpioIrqs, acpi), []);
    ghost var k := FirstMatch(entries, (e: HidEntry) => IsHidMatch(e, acpi));
    var i := 0;
    while i < |entries|
      invariant 0 <= i <= k
      invariant device == BaseDevice(acpi, controller, busNum, gpioIrqs)
    {
      var entry := entries[i];
      if !("0018:" <= entry.name) {
        i := i + 1;
        continue;
      }
      if entry.uevent.Some? {
        var uevent := entry.uevent.value;
        if !Contains(uevent, acpi) {
          i := i + 1;
          continue;
        }
        var parts := Split(entry.name, ':');
        if |parts| >= 3 {
          device := device.(vendorId := Hex16(parts[1]));
          device := device.(productId := Hex16(Split(parts[2], '.')[0]));
        }
        var driver := ReadDriver(uevent);
        device := device.(driver := driver);
        var names := ReadInputNames(entry.inputNames);
        device := device.(inputNames := names);
        assert i == k;
        break;
      }
      i := i + 1;
    }
    device := device.(deviceType := DetermineDeviceType(device));
  }

  /** The loop over the `uevent` lines: the last `DRIVER=` line wins. */
  method ReadDriver(uevent: string) returns (driver: string)
    ensures driver == DriverAmong(Lines(uevent))
  {
    var lines := Lines(uevent);
    driver := "";
    var i := 0;
    while i < |lines|
      invariant 0 <= i <= |lines|
      invariant driver == DriverAmong(lines[..i])
    {
      assert lines[..i + 1][..i] == lines[..i];
      var value := StripPrefix(lines[i], "DRIVER=");
      if value.Some? {
        driver := value.value;
      }
      i := i + 1;
    }
    assert lines[..i] == lines;
  }

  /** The loop over the input devices: each readable name, trimmed. */
  method ReadInputNames(files: seq<Option<string>>) returns (names: seq<string>)
    ensures names == InputNames(files)
  {
    names := [];
    var i := 0;
    while i < |files|
      invariant 0 <= i <= |files|
      invariant names == InputNames(files[..i])
    {
      assert files[..i + 1][..i] == files[..i];
      if files[i].Some? {
        names := names + [Trim(files[i].value)];
      }
      i := i + 1;
    }
    assert files[..i] == files;
  }

  /** A device without a matching HID entry keeps zero ids and no driver, and is a plain HID device. */
  lemma UnmatchedDevice(acpi: string, controller: string, busNum: U8, gpioIrqs: map<string, string>,
                        entries: seq<HidEntry>)
    requires forall i :: 0 <= i < |entries| ==> !IsHidMatch(entries[i], acpi)
    ensures var d := HidDeviceOf(acpi, controller, busNum, gpioIrqs, entries);
      d.vendorId == 0 && d.productId == 0 && d.driver == "" && d.inputNames == [] && d.deviceType == "HID Device"
  {
  }

  /** Four upper-case hex digits, as the kernel writes HID ids. */
  function HexDigit(d: nat): (c: char)
    requires d < 16
    ensures DigitValue(c, 16) == Some(d)
  {
    if d < 10 then ('0' as int + d) as char else ('A' as int + d - 10) as char
  }

  function Hex4(v: U16): (r: string)
    ensures |r| == 4
  {
    [HexDigit(v / 16 / 16 / 16), HexDigit(v / 16 / 16 % 16), HexDigit(v / 16 % 16), HexDigit(v % 16)]
  }

  /** Hex digits carry no separator. */
  lemma Hex4NoSeparators(v: U16)
    ensures ':' !in Hex4(v) && '.' !in Hex4(v)
  {
  }

  /** Reading four hex digits back gives the number they were written from. */
  lemma Hex4RoundTrip(v: U16)
    ensures Hex16(Hex4(v)) == v
  {
    var s := Hex4(v);
    var q1, q2, q3 := v / 16, v / 16 / 16, v / 16 / 16 / 16;
    assert v == q1 * 16 + v % 16 && q1 == q2 * 16 + q1 % 16 && q2 == q3 * 16 + q2 % 16;
    assert s[0] != '+';
    assert s[1..][1..] == s[2..] && s[2..][1..] == s[3..] && s[3..][1..] == [];
    assert Accumulate(s, 16, 0x1_0000, 0) == Accumulate(s[1..], 16, 0x1_0000, q3);
    assert Accumulate(s[1..], 16, 0x1_0000, q3) == Accumulate(s[2..], 16, 0x1_0000, q2);
    assert Accumulate(s[2..], 16, 0x1_0000, q2) == Accumulate(s[3..], 16, 0x1_0000, q1);
    assert Accumulate(s[3..], 16, 0x1_0000, q1) == Some(v);
  }

  /** The name the kernel gives a HID device: bus, vendor, product and instance, in hex. */
  function HidDeviceName(bus: U16, vendorId: U16, productId: U16, instance: U16): string {
    Hex4(bus) + ":" + Hex4(vendorId) + ":" + Hex4(productId) + "." + Hex4(instance)
  }

  /** The ids are read back from a device name exactly as the kernel wrote them. */
  lemma HidIdsRoundTrip(bus: U16, vendorId: U16, productId: U16, instance: U16)
    ensures HidIds(HidDeviceName(bus, vendorId, productId, instance)) == (vendorId, productId)
  {
    Hex4NoSeparators(bus);
    Hex4NoSeparators(vendorId);
    Hex4NoSeparators(productId);
    Hex4NoSeparators(instance);
    var last := Hex4(productId) + "." + Hex4(instance);
    assert ':' !in last;
    var name := HidDeviceName(bus, vendorId, productId, instance);
    var fields := [Hex4(bus), Hex4(vendorId), last];
    assert Join(fields[2..], ":") == last;
    assert Join(fields[1..], ":") == Hex4(vendorId) + ":" + last by {
      assert fields[1..][1..] == fields[2..];
    }
    assert name == Join(fields, ":");
    SplitJoin(fields, ':');
    SplitAtSeparator(Hex4(productId), Hex4(instance), '.');
    Hex4RoundTrip(vendorId);
    Hex4RoundTrip(productId);
  }

  // ------------------------------------------------------------------
  // Grouping devices under their controllers
  // ------------------------------------------------------------------

  /** An entry of the `i2c_hid_acpi` driver directory: its name and the target of its link, if readable. */
  datatype DriverEntry = DriverEntry(name: string, link: Option<string>)

  /** The device a driver-directory entry stands for; entries not named `i2c-…` stand for none. */
  function EntryDevice(e: DriverEntry, gpioIrqs: map<string, string>, hidEntries: seq<HidEntry>): Option<HidDevice> {
    match StripPrefix(e.name, "i2c-")
    case None => None
    case Some(acpi) =>
      var path := e.link.GetOr("");
      Some(HidDeviceOf(acpi, ExtractControllerName(path), ExtractBusNum(path), gpioIrqs, hidEntries))
  }

  /** The devices of the driver directory, in enumeration order. */
  function Devices(entries: seq<DriverEntry>, gpioIrqs: map<string, string>, hidEntries: seq<HidEntry>): seq<HidDevice> {
    FilterMap(entries, (e: DriverEntry) => EntryDevice(e, gpioIrqs, hidEntries))
  }

  lemma DevicesStep(entries: seq<DriverEntry>, i: nat, gpioIrqs: map<string, string>, hidEntries: seq<HidEntry>)
    requires i < |entries|
    ensures Devices(entries[..i + 1], gpioIrqs, hidEntries)
         == Devices(entries[..i], gpioIrqs, hidEntries)
            + match EntryDevice(entries[i], gpioIrqs, hidEntries) case Some(d) => [d] case None => []
  {
    var f := (e: DriverEntry) => EntryDevice(e, gpioIrqs, hidEntries);
    assert entries[..i + 1] == entries[..i] + [entries[i]];
    FilterMapAppend(entries[..i], [entries[i]], f);
    FilterMapSingleton(entries[i], f);
  }

  /** `controllers.entry(name).or_insert_with(..)` followed by pushing the device. */
  function AddDevice(groups: map<string, I2cController>, d: HidDevice, controllerIrqs: map<string, string>): map<string, I2cController> {
    if d.controller in groups then
      groups[d.controller := groups[d.controller].(hidDevices := groups[d.controller].hidDevices + [d])]
    else
      groups[d.controller := I2cController(d.controller, d.busNum, Lookup(controllerIrqs, d.controller), [d])]
  }

  /** The controllers the devices are grouped into (specification of the grouping loop of `Discover`). */
  function GroupDevices(devs: seq<HidDevice>, controllerIrqs: map<string, string>): map<string, I2cController>
    decreases |devs|
  {
    if devs == [] then map[]
    else AddDevice(GroupDevices(devs[..|devs| - 1], controllerIrqs), devs[|devs| - 1], controllerIrqs)
  }

  /** The devices on controller `c`, in order. */
  function DevicesOn(devs: seq<HidDevice>, c: string): seq<HidDevice>
    decreases |devs|
  {
    if devs == [] then []
    else DevicesOn(devs[..|devs| - 1], c) + if devs[|devs| - 1].controller == c then [devs[|devs| - 1]] else []
  }

  /**
   * There is one controller per controller name the devices mention; it
   * carries that name, its IRQ from the controller map, and exactly the
   * devices on it, in enumeration order.
   */
  lemma {:induction false} GroupKeys(devs: seq<HidDevice>, controllerIrqs: map<string, string>)
    ensures forall c :: c in GroupDevices(devs, controllerIrqs) <==> exists i :: 0 <= i < |devs| && devs[i].controller == c
    decreases |devs|
  {
    if devs != [] {
      var prefix := devs[..|devs| - 1];
      GroupKeys(prefix, controllerIrqs);
      assert forall i :: 0 <= i < |prefix| ==> prefix[i] == devs[i];
    }
  }

  lemma {:induction false} GroupContents(devs: seq<HidDevice>, controllerIrqs: map<string, string>)
    ensures forall c :: c in GroupDevices(devs, controllerIrqs) ==>
      var g := GroupDevices(devs, controllerIrqs)[c];
      g.name == c && g.irq == Lookup(controllerIrqs, c) && g.hidDevices == DevicesOn(devs, c)
    decreases |devs|
  {
    if devs != [] {
      var prefix := devs[..|devs| - 1];
      var d := devs[|devs| - 1];
      var before := GroupDevices(prefix, controllerIrqs);
      GroupContents(prefix, controllerIrqs);
      if d.controller !in before {
        GroupKeys(prefix, controllerIrqs);
        forall i | 0 <= i < |prefix|
          ensures prefix[i].controller != d.controller
        {
          assert prefix[i].controller in before;
        }
        DevicesOnAbsent(prefix, d.controller);
      }
    }
  }

  lemma GroupEntries(devs: seq<HidDevice>, controllerIrqs: map<string, string>)
    ensures forall c :: c in GroupDevices(devs, controllerIrqs) <==> exists i :: 0 <= i < |devs| && devs[i].controller == c
    ensures forall c :: c in GroupDevices(devs, controllerIrqs) ==>
      var g := GroupDevices(devs, controllerIrqs)[c];
      g.name == c && g.irq == Lookup(controllerIrqs, c) && g.hidDevices == DevicesOn(devs, c)
  {
    GroupKeys(devs, controllerIrqs);
    GroupContents(devs, controllerIrqs);
  }

  /** No device is on a controller that none of them names. */
  lemma {:induction false} DevicesOnAbsent(devs: seq<HidDevice>, c: string)
    requires forall i :: 0 <= i < |devs| ==> devs[i].controller != c
    ensures DevicesOn(devs, c) == []
    decreases |devs|
  {
    if devs != [] {
      DevicesOnAbsent(devs[..|devs| - 1], c);
    }
  }

  /** No device before the `j`-th is on the same controller. */
  predicate FirstOnController(devs: seq<HidDevice>, j: nat)
    requires j < |devs|
  {
    forall l :: 0 <= l < j ==> devs[l].controller != devs[j].controller
  }

  /** The first device found on a controller fixes its bus number. */
  lemma {:induction false} GroupBusNumAt(devs: seq<HidDevice>, controllerIrqs: map<string, string>, j: nat)
    requires j < |devs| && FirstOnController(devs, j)
    ensures devs[j].controller in GroupDevices(devs, controllerIrqs)
    ensures GroupDevices(devs, controllerIrqs)[devs[j].controller].busNum == devs[j].busNum
    decreases |devs|
  {
    var prefix := devs[..|devs| - 1];
    var d := devs[|devs| - 1];
    var before := GroupDevices(prefix, controllerIrqs);
    assert GroupDevices(devs, controllerIrqs) == AddDevice(before, d, controllerIrqs);
    if j < |prefix| {
      assert prefix[j] == devs[j];
      assert FirstOnController(prefix, j) by {
        forall l | 0 <= l < j
          ensures prefix[l].controller != prefix[j].controller
        {
          assert prefix[l] == devs[l];
        }
      }
      GroupBusNumAt(prefix, controllerIrqs, j);
    } else {
      GroupKeys(prefix, controllerIrqs);
    }
  }

  /** A controller's bus number is that of the first device found on it. */
  lemma GroupBusNum(devs: seq<HidDevice>, controllerIrqs: map<string, string>)
    ensures forall j :: 0 <= j < |devs| && FirstOnController(devs, j) ==>
      devs[j].controller in GroupDevices(devs, controllerIrqs)
      && GroupDevices(devs, controllerIrqs)[devs[j].controller].busNum == devs[j].busNum
  {
    forall j | 0 <= j < |devs| && FirstOnController(devs, j)
      ensures devs[j].controller in GroupDevices(devs, controllerIrqs)
      ensures GroupDevices(devs, controllerIrqs)[devs[j].controller].busNum == devs[j].busNum
    {
      GroupBusNumAt(devs, controllerIrqs, j);
    }
  }

  /** `cs` lists the controllers of `groups`, each once. */
  predicate ListsGroups(cs: seq<I2cController>, groups: map<string, I2cController>) {
    && |cs| == |groups|
    && (forall i :: 0 <= i < |cs| ==> cs[i].name in groups && groups[cs[i].name] == cs[i])
    && (forall k :: k in groups ==> exists i :: 0 <= i < |cs| && cs[i].name == k)
  }

  /** `cs` lists the controllers already taken out of `groups`; `rest` holds the others. */
  predicate SplitGroups(groups: map<string, I2cController>, cs: seq<I2cController>, rest: map<string, I2cController>) {
    && (forall k :: k in rest ==> k in groups && rest[k] == groups[k])
    && (forall i :: 0 <= i < |cs| ==> cs[i].name in groups && groups[cs[i].name] == cs[i] && cs[i].name !in rest)
    && (forall k :: k in groups ==> k in rest || exists i :: 0 <= i < |cs| && cs[i].name == k)
    && |cs| + |rest| == |groups|
  }

  /** Taking one more controller out keeps the split. */
  lemma TakeGroup(groups: map<string, I2cController>, cs: seq<I2cController>, rest: map<string, I2cController>, k: string)
    requires forall k :: k in groups ==> groups[k].name == k
    requires SplitGroups(groups, cs, rest) && k in rest
    ensures SplitGroups(groups, cs + [rest[k]], rest - {k})
  {
    TakeGroupCovers(groups, cs, rest, k);
  }

  /** Every controller is still either left over or listed. */
  lemma TakeGroupCovers(groups: map<string, I2cController>, cs: seq<I2cController>, rest: map<string, I2cController>, k: string)
    requires forall k :: k in groups ==> k in rest || exists i :: 0 <= i < |cs| && cs[i].name == k
    requires k in rest && rest[k].name == k
    ensures forall k' :: k' in groups ==>
      k' in rest - {k} || exists i :: 0 <= i < |cs + [rest[k]]| && (cs + [rest[k]])[i].name == k'
  {
    var cs' := cs + [rest[k]];
    assert cs'[|cs|].name == k;
    forall k' | k' in groups
      ensures k' in rest - {k} || exists i :: 0 <= i < |cs'| && cs'[i].name == k'
    {
      if k' !in rest - {k} && k' != k {
        var i :| 0 <= i < |cs| && cs[i].name == k';
        assert cs'[i] == cs[i];
      }
    }
  }

  /** `controllers.into_values().collect()`: the controllers in an unspecified order. */
  method GroupValues(groups: map<string, I2cController>) returns (cs: seq<I2cController>)
    requires forall k :: k in groups ==> groups[k].name == k
    ensures ListsGroups(cs, groups)
  {
    var rest := groups;
    cs := [];
    while rest != map[]
      invariant SplitGroups(groups, cs, rest)
      decreases |rest|
    {
      var k :| k in rest;
      TakeGroup(groups, cs, rest, k);
      cs := cs + [rest[k]];
      rest := rest - {k};
    }
  }

  // ------------------------------------------------------------------
  // Sorting by bus number
  // ------------------------------------------------------------------

  predicate BusSorted(cs: seq<I2cController>) {
    forall i, j :: 0 <= i < j < |cs| ==> cs[i].busNum <= cs[j].busNum
  }

  /** Inserts `c` before the first controller with a bus number not below its own. */
  function InsertByBus(c: I2cController, cs: seq<I2cController>): seq<I2cController>
    decreases |cs|
  {
    if cs == [] || c.busNum <= cs[0].busNum then [c] + cs
    else [cs[0]] + InsertByBus(c, cs[1..])
  }

  /** `sort_by_key(|c| c.bus_num)`, as an insertion sort. */
  function SortByBus(cs: seq<I2cController>): seq<I2cController>
    decreases |cs|
  {
    if cs == [] then [] else InsertByBus(cs[0], SortByBus(cs[1..]))
  }

  /** Every bus number in the result is one of `cs` or that of `c`. */
  lemma {:induction false} InsertByBusBound(c: I2cController, cs: seq<I2cController>, low: nat)
    requires low <= c.busNum
    requires forall i :: 0 <= i < |cs| ==> low <= cs[i].busNum
    ensures forall i :: 0 <= i < |InsertByBus(c, cs)| ==> low <= InsertByBus(c, cs)[i].busNum
    decreases |cs|
  {
    if cs != [] && c.busNum > cs[0].busNum {
      InsertByBusBound(c, cs[1..], low);
    }
  }

  lemma {:induction false} InsertByBusSorted(c: I2cController, cs: seq<I2cController>)
    requires BusSorted(cs)
    ensures BusSorted(InsertByBus(c, cs))
    decreases |cs|
  {
    if cs != [] && c.busNum > cs[0].busNum {
      InsertByBusSorted(c, cs[1..]);
      InsertByBusBound(c, cs[1..], cs[0].busNum);
    }
  }

  lemma {:induction false} InsertByBusPermutes(c: I2cController, cs: seq<I2cController>)
    ensures multiset(InsertByBus(c, cs)) == multiset(cs) + multiset{c}
    decreases |cs|
  {
    if cs != [] && c.busNum > cs[0].busNum {
      InsertByBusPermutes(c, cs[1..]);
      assert cs == [cs[0]] + cs[1..];
    }
  }

  lemma InsertByBusCorrect(c: I2cController, cs: seq<I2cController>)
    requires BusSorted(cs)
    ensures BusSorted(InsertByBus(c, cs))
    ensures multiset(InsertByBus(c, cs)) == multiset(cs) + multiset{c}
  {
    InsertByBusSorted(c, cs);
    InsertByBusPermutes(c, cs);
  }

  /** The sort yields the same controllers, by ascending bus number. */
  lemma {:induction false} SortByBusCorrect(cs: seq<I2cController>)
    ensures BusSorted(SortByBus(cs))
    ensures multiset(SortByBus(cs)) == multiset(cs)
    decreases |cs|
  {
    if cs != [] {
      SortByBusCorrect(cs[1..]);
      InsertByBusCorrect(cs[0], SortByBus(cs[1..]));
      assert cs == [cs[0]] + cs[1..];
    }
  }

  /** Reordering a listing keeps it a listing. */
  lemma ListsGroupsPermuted(cs: seq<I2cController>, ds: seq<I2cController>, groups: map<string, I2cController>)
    requires ListsGroups(cs, groups)
    requires multiset(ds) == multiset(cs)
    ensures ListsGroups(ds, groups)
  {
    assert |ds| == |multiset(ds)| == |multiset(cs)| == |cs|;
    forall i | 0 <= i < |ds|
      ensures ds[i].name in groups && groups[ds[i].name] == ds[i]
    {
      assert ds[i] in multiset(cs);
    }
    forall k | k in groups
      ensures exists i :: 0 <= i < |ds| && ds[i].name == k
    {
      var i :| 0 <= i < |cs| && cs[i].name == k;
      assert cs[i] in multiset(ds);
      var j :| 0 <= j < |ds| && ds[j] == cs[i];
    }
  }

  // ------------------------------------------------------------------
  // The whole discovery
  // ------------------------------------------------------------------

  /**
   * `discover`: scans the counter table, turns every `i2c-…` entry of the
   * driver directory into a device, groups the devices by controller and
   * lists the controllers by ascending bus number.
   */
  method Discover(content: string, driverEntries: seq<DriverEntry>, hidEntries: seq<HidEntry>)
    returns (topology: I2cTopology)
    ensures var maps := TableMaps(Lines(content));
      && topology.gpioIrqs == maps.gpio
      && topology.controllerIrqs == maps.controllers
      && BusSorted(topology.controllers)
      && ListsGroups(topology.controllers,
                     GroupDevices(Devices(driverEntries, maps.gpio, hidEntries), maps.controllers))
  {
    var maps := ScanInterruptTable(content);
    var groups := GroupDriverEntries(driverEntries, maps, hidEntries);
    GroupEntries(Devices(driverEntries, maps.gpio, hidEntries), maps.controllers);
    var cs := GroupValues(groups);
    var sorted := SortByBus(cs);
    SortByBusCorrect(cs);
    ListsGroupsPermuted(cs, sorted, groups);
    return I2cTopology(sorted, maps.gpio, maps.controllers);
  }

  /** The loop over the driver directory: every `i2c-…` entry is grouped under its controller. */
  method GroupDriverEntries(driverEntries: seq<DriverEntry>, maps: IrqMaps, hidEntries: seq<HidEntry>)
    returns (groups: map<string, I2cController>)
    ensures groups == GroupDevices(Devices(driverEntries, maps.gpio, hidEntries), maps.controllers)
  {
    groups := map[];
    var i := 0;
    while i < |driverEntries|
      invariant 0 <= i <= |driverEntries|
      invariant groups == GroupDevices(Devices(driverEntries[..i], maps.gpio, hidEntries), maps.controllers)
    {
      GroupStep(driverEntries, i, maps, hidEntries);
      groups := AddEntry(groups, driverEntries[i], maps, hidEntries);
      i := i + 1;
    }
    assert driverEntries[..i] == driverEntries;
  }

  /** One more driver entry is one more `AddDevice` step, or none. */
  lemma GroupStep(entries: seq<DriverEntry>, i: nat, maps: IrqMaps, hidEntries: seq<HidEntry>)
    requires i < |entries|
    ensures GroupDevices(Devices(entries[..i + 1], maps.gpio, hidEntries), maps.controllers)
         == match EntryDevice(entries[i], maps.gpio, hidEntries)
            case Some(d) => AddDevice(GroupDevices(Devices(entries[..i], maps.gpio, hidEntries), maps.controllers), d, maps.controllers)
            case None => GroupDevices(Devices(entries[..i], maps.gpio, hidEntries), maps.controllers)
  {
    DevicesStep(entries, i, maps.gpio, hidEntries);
    var before := Devices(entries[..i], maps.gpio, hidEntries);
    match EntryDevice(entries[i], maps.gpio, hidEntries)
    case Some(d) =>
      AddDeviceStep(before, d, maps.controllers);
    case None =>
      assert before + [] == before;
  }

  /** The body of the loop over the driver directory. */
  method AddEntry(groups: map<string, I2cController>, entry: DriverEntry, maps: IrqMaps, hidEntries: seq<HidEntry>)
    returns (next: map<string, I2cController>)
    ensures next == match EntryDevice(entry, maps.gpio, hidEntries)
      case Some(d) => AddDevice(groups, d, maps.controllers)
      case None => groups
  {
    var device := EntryHidDevice(entry, maps.gpio, hidEntries);
    if device.None? {
      return groups;
    }
    next := PushDevice(groups, device.value, maps.controllers);
  }

  /** An `i2c-…` entry of the driver directory becomes a device; any other entry is skipped. */
  method EntryHidDevice(entry: DriverEntry, gpioIrqs: map<string, string>, hidEntries: seq<HidEntry>)
    returns (device: Option<HidDevice>)
    ensures device == EntryDevice(entry, gpioIrqs, hidEntries)
  {
    EntryDeviceCases(entry, gpioIrqs, hidEntries);
    if !("i2c-" <= entry.name) {
      return None;
    }
    var acpi := entry.name[4..];
    var path := entry.link.GetOr("");
    var controllerName := ExtractControllerName(path);
    var busNum := ExtractBusNum(path);
    var d := DiscoverHidDevice(acpi, controllerName, busNum, gpioIrqs, hidEntries);
    return Some(d);
  }

  /** `controllers.entry(name).or_insert_with(..).hid_devices.push(device)` */
  method PushDevice(groups: map<string, I2cController>, device: HidDevice, controllerIrqs: map<string, string>)
    returns (next: map<string, I2cController>)
    ensures next == AddDevice(groups, device, controllerIrqs)
  {
    var controller: I2cController;
    if device.controller in groups {
      controller := groups[device.controller];
    } else {
      controller := I2cController(device.controller, device.busNum, Lookup(controllerIrqs, device.controller), []);
    }
    EntryOrInsert(groups, device, controllerIrqs, controller);
    next := groups[device.controller := controller.(hidDevices := controller.hidDevices + [device])];
  }

  lemma EntryDeviceCases(e: DriverEntry, gpioIrqs: map<string, string>, hidEntries: seq<HidEntry>)
    ensures !("i2c-" <= e.name) ==> EntryDevice(e, gpioIrqs, hidEntries) == None
    ensures "i2c-" <= e.name ==>
      var path := e.link.GetOr("");
      EntryDevice(e, gpioIrqs, hidEntries)
        == Some(HidDeviceOf(e.name[4..], ExtractControllerName(path), ExtractBusNum(path), gpioIrqs, hidEntries))
  {
    if "i2c-" <= e.name {
      assert StripPrefix(e.name, "i2c-") == Some(e.name[4..]);
    }
  }

  /** `entry(..).or_insert_with(..)` followed by a push is `AddDevice`. */
  lemma EntryOrInsert(groups: map<string, I2cController>, d: HidDevice, controllerIrqs: map<string, string>,
                      controller: I2cController)
    requires controller == if d.controller in groups then groups[d.controller]
                           else I2cController(d.controller, d.busNum, Lookup(controllerIrqs, d.controller), [])
    ensures groups[d.controller := controller.(hidDevices := controller.hidDevices + [d])]
         == AddDevice(groups, d, controllerIrqs)
  {
    assert [] + [d] == [d];
  }

  /** Grouping one more device is one `AddDevice` step. */
  lemma AddDeviceStep(devs: seq<HidDevice>, d: HidDevice, controllerIrqs: map<string, string>)
    ensures GroupDevices(devs + [d], controllerIrqs) == AddDevice(GroupDevices(devs, controllerIrqs), d, controllerIrqs)
  {
    assert (devs + [d])[..|devs|] == devs;
  }

  // ------------------------------------------------------------------
  // The flat list of interrupt sources
  // ------------------------------------------------------------------

  /** The device types of a controller's devices, in order. */
  function DeviceTypes(ds: seq<HidDevice>): (ts: seq<string>)
    ensures |ts| == |ds| && forall i :: 0 <= i < |ds| ==> ts[i] == ds[i].deviceType
  {
    seq(|ds|, i requires 0 <= i < |ds| => ds[i].deviceType)
  }

  /** ` (t1, t2, …)` after a controller's name when it has devices. */
  function ControllerSummary(c: I2cController): string {
    if c.hidDevices == [] then "" else " (" + Join(DeviceTypes(c.hidDevices), ", ") + ")"
  }

  /** The display row of a controller with an IRQ. */
  function ControllerRow(c: I2cController): InterruptSourceInfo
    requires c.irq.Some?
  {
    InterruptSourceInfo(c.irq.value, c.name + ControllerSummary(c), "I2C Controller", true, None, 0)
  }

  /** The display rows of the devices on controller `name` that have a GPIO IRQ. */
  function DeviceRows(name: string, ds: seq<HidDevice>): seq<InterruptSourceInfo>
    decreases |ds|
  {
    if ds == [] then []
    else
      var d := ds[|ds| - 1];
      DeviceRows(name, ds[..|ds| - 1])
      + if d.gpioIrq.Some? then [InterruptSourceInfo(d.gpioIrq.value, d.acpiName, d.deviceType, false, Some(name), 1)] else []
  }

  /** A controller's rows: its own, if it has an IRQ, then those of its devices. */
  function ControllerRows(c: I2cController): seq<InterruptSourceInfo> {
    (if c.irq.Some? then [ControllerRow(c)] else []) + DeviceRows(c.name, c.hidDevices)
  }

  /** The rows of all controllers, in order (specification of `AllSources`). */
  function SourcesOf(cs: seq<I2cController>): seq<InterruptSourceInfo>
    decreases |cs|
  {
    if cs == [] then [] else SourcesOf(cs[..|cs| - 1]) + ControllerRows(cs[|cs| - 1])
  }

  /** `I2cTopology::all_sources` */
  method AllSources(topology: I2cTopology) returns (sources: seq<InterruptSourceInfo>)
    ensures sources == SourcesOf(topology.controllers)
  {
    var cs := topology.controllers;
    sources := [];
    var i := 0;
    while i < |cs|
      invariant 0 <= i <= |cs|
      invariant sources == SourcesOf(cs[..i])
    {
      SourcesOfStep(cs, i);
      var c := cs[i];
      var head := sources;
      if c.irq.Some? {
        var summary := if c.hidDevices == [] then "" else " (" + Join(DeviceTypes(c.hidDevices), ", ") + ")";
        head := sources + [InterruptSourceInfo(c.irq.value, c.name + summary, "I2C Controller", true, None, 0)];
        assert head == sources + [ControllerRow(c)];
      }
      var next := AppendDeviceRows(head, c.name, c.hidDevices);
      RowsAppend(sources, c);
      sources := next;
      i := i + 1;
    }
    assert cs[..i] == cs;
  }

  lemma SourcesOfStep(cs: seq<I2cController>, i: nat)
    requires i < |cs|
    ensures SourcesOf(cs[..i + 1]) == SourcesOf(cs[..i]) + ControllerRows(cs[i])
  {
    assert cs[..i + 1][..i] == cs[..i];
  }

  lemma RowsAppend(sources: seq<InterruptSourceInfo>, c: I2cController)
    ensures (sources + (if c.irq.Some? then [ControllerRow(c)] else [])) + DeviceRows(c.name, c.hidDevices)
         == sources + ControllerRows(c)
  {
  }

  /** The inner loop of `all_sources`, over one controller's devices. */
  method AppendDeviceRows(head: seq<InterruptSourceInfo>, name: string, ds: seq<HidDevice>)
    returns (sources: seq<InterruptSourceInfo>)
    ensures sources == head + DeviceRows(name, ds)
  {
    sources := head;
    var j := 0;
    while j < |ds|
      invariant 0 <= j <= |ds|
      invariant sources == head + DeviceRows(name, ds[..j])
    {
      assert ds[..j + 1][..j] == ds[..j];
      var d := ds[j];
      if d.gpioIrq.Some? {
        sources := sources + [InterruptSourceInfo(d.gpioIrq.value, d.acpiName, d.deviceType, false, Some(name), 1)];
      }
      j := j + 1;
    }
    assert ds[..j] == ds;
  }

  /** How many rows a controller gives: one for itself if it has an IRQ, one per device with a GPIO IRQ. */
  function IrqDeviceCount(ds: seq<HidDevice>): nat
    decreases |ds|
  {
    if ds == [] then 0 else IrqDeviceCount(ds[..|ds| - 1]) + if ds[|ds| - 1].gpioIrq.Some? then 1 else 0
  }

  function IrqSourceCount(cs: seq<I2cController>): nat
    decreases |cs|
  {
    if cs == [] then 0
    else
      var c := cs[|cs| - 1];
      IrqSourceCount(cs[..|cs| - 1]) + (if c.irq.Some? then 1 else 0) + IrqDeviceCount(c.hidDevices)
  }

  lemma {:induction false} DeviceRowsCount(name: string, ds: seq<HidDevice>)
    ensures |DeviceRows(name, ds)| == IrqDeviceCount(ds)
    decreases |ds|
  {
    if ds != [] {
      DeviceRowsCount(name, ds[..|ds| - 1]);
    }
  }

  /** Entries without an IRQ are left out, and nothing else is. */
  lemma {:induction false} SourcesCount(cs: seq<I2cController>)
    ensures |SourcesOf(cs)| == IrqSourceCount(cs)
    decreases |cs|
  {
    if cs != [] {
      SourcesCount(cs[..|cs| - 1]);
      DeviceRowsCount(cs[|cs| - 1].name, cs[|cs| - 1].hidDevices);
    }
  }

  /** The shape of a row: controllers at the top level, devices one level in, under a named parent. */
  predicate RowShape(r: InterruptSourceInfo) {
    if r.isController then r.indentLevel == 0 && r.parentController.None? && r.deviceType == "I2C Controller"
    else r.indentLevel == 1 && r.parentController.Some?
  }

  lemma {:induction false} DeviceRowsShape(name: string, ds: seq<HidDevice>)
    ensures forall i :: 0 <= i < |DeviceRows(name, ds)| ==>
      RowShape(DeviceRows(name, ds)[i]) && DeviceRows(name, ds)[i].parentController == Some(name)
    decreases |ds|
  {
    if ds != [] {
      DeviceRowsShape(name, ds[..|ds| - 1]);
    }
  }

  /** Every row has its shape, and every device row's parent is one of the controllers. */
  lemma {:induction false} SourcesShape(cs: seq<I2cController>)
    ensures forall i :: 0 <= i < |SourcesOf(cs)| ==> RowShape(SourcesOf(cs)[i])
    ensures forall i :: 0 <= i < |SourcesOf(cs)| && !SourcesOf(cs)[i].isController ==>
      exists j :: 0 <= j < |cs| && SourcesOf(cs)[i].parentController == Some(cs[j].name)
    decreases |cs|
  {
    if cs != [] {
      var prefix := cs[..|cs| - 1];
      var c := cs[|cs| - 1];
      SourcesShape(prefix);
      DeviceRowsShape(c.name, c.hidDevices);
      assert forall j :: 0 <= j < |prefix| ==> prefix[j] == cs[j];
    }
  }

  // ------------------------------------------------------------------
  // The examples of the source's unit tests
  // ------------------------------------------------------------------

  const FixtureTouchpadGpioLine :=
    Spaced([1, 10, 10, 10, 6, 1, 3, 2], ["203:", "0", "0", "0", "21323", "intel-gpio", "18", "PIXA3854:00"])

  const FixtureKeyboardGpioLine :=
    Spaced([1, 10, 6, 1, 3, 2], ["200:", "0", "1306", "intel-gpio", "33", "FRMW0005:00"])

  lemma FixtureTouchpadTokens()
    ensures Words(FixtureTouchpadGpioLine) == ["203:", "0", "0", "0", "21323", "intel-gpio", "18", "PIXA3854:00"]
  {
    WordsSpaced([1, 10, 10, 10, 6, 1, 3, 2], ["203:", "0", "0", "0", "21323", "intel-gpio", "18", "PIXA3854:00"]);
  }

  lemma FixtureKeyboardTokens()
    ensures Words(FixtureKeyboardGpioLine) == ["200:", "0", "1306", "intel-gpio", "33", "FRMW0005:00"]
  {
    WordsSpaced([1, 10, 6, 1, 3, 2], ["200:", "0", "1306", "intel-gpio", "33", "FRMW0005:00"]);
  }

  /** A line whose last token is an ACPI name yields that name. */
  lemma AcpiNameAtEnd(line: string, tokens: seq<string>)
    requires Words(line) == tokens && tokens != []
    requires IsAcpiToken(tokens[|tokens| - 1])
    ensures ExtractAcpiName(line) == Some(tokens[|tokens| - 1])
  {
  }

  lemma FixtureTouchpadAcpiToken()
    ensures IsAcpiToken("PIXA3854:00")
  {
    assert "PIXA3854:00"[8] == ':';
    NotContains("PIXA3854:00", "IR-", '-');
    NotContains("PIXA3854:00", "PCI-", '-');
  }

  lemma FixtureKeyboardAcpiToken()
    ensures IsAcpiToken("FRMW0005:00")
  {
    assert "FRMW0005:00"[8] == ':';
    NotContains("FRMW0005:00", "IR-", '-');
    NotContains("FRMW0005:00", "PCI-", '-');
  }

  /** The ACPI names at the end of the two GPIO rows of the source's test are found. */
  lemma FixtureAcpiNames()
    ensures ExtractAcpiName(FixtureTouchpadGpioLine) == Some("PIXA3854:00")
    ensures ExtractAcpiName(FixtureKeyboardGpioLine) == Some("FRMW0005:00")
  {
    FixtureTouchpadTokens();
    FixtureKeyboardTokens();
    FixtureTouchpadAcpiToken();
    FixtureKeyboardAcpiToken();
    AcpiNameAtEnd(FixtureTouchpadGpioLine, ["203:", "0", "0", "0", "21323", "intel-gpio", "18", "PIXA3854:00"]);
    AcpiNameAtEnd(FixtureKeyboardGpioLine, ["200:", "0", "1306", "intel-gpio", "33", "FRMW0005:00"]);
  }

  /** The link target of the source's test, segment by segment. */
  const FixtureLinkSegments := ["..", "..", "..", "..", "devices", "pci0000:00", "0000:00:19.1",
                                "i2c_designware.5", "i2c-5", "i2c-PIXA3854:00"]

  lemma FixtureLinkSplit()
    ensures Split(Join(FixtureLinkSegments, "/"), '/') == FixtureLinkSegments
  {
    SplitJoin(FixtureLinkSegments, '/');
  }

  lemma FixtureLinkKinds()
    ensures forall l :: 0 <= l < 7 ==> !IsControllerSegment(FixtureLinkSegments[l]) && !IsBusSegment(FixtureLinkSegments[l])
    ensures IsControllerSegment(FixtureLinkSegments[7]) && !IsBusSegment(FixtureLinkSegments[7])
    ensures SegmentBusNum(FixtureLinkSegments[8]) == Some(5)
  {
    FixtureLinkHead();
    FixtureLinkController();
    FixtureLinkBus();
  }

  lemma FixtureLinkController()
    ensures IsControllerSegment(FixtureLinkSegments[7]) && !IsBusSegment(FixtureLinkSegments[7])
  {
    assert FixtureLinkSegments[7] == "i2c_designware.5";
    assert "i2c_designware.5"[3] == '_';
  }

  lemma FixtureLinkBus()
    ensures SegmentBusNum(FixtureLinkSegments[8]) == Some(5)
  {
    assert FixtureLinkSegments[8] == "i2c-5";
    assert "i2c-5"[4..] == "5" == Decimal(5);
    DecimalRoundTrip(5, 0x100);
  }

  /** The segments before the controller name neither a controller nor a bus. */
  lemma FixtureLinkHead()
    ensures forall l :: 0 <= l < 7 ==> !IsControllerSegment(FixtureLinkSegments[l]) && !IsBusSegment(FixtureLinkSegments[l])
  {
    forall l | 0 <= l < 7
      ensures !IsControllerSegment(FixtureLinkSegments[l]) && !IsBusSegment(FixtureLinkSegments[l])
    {
      var seg := FixtureLinkSegments[l];
      assert seg == ".." || seg == "devices" || seg == "pci0000:00" || seg == "0000:00:19.1";
      assert seg[0] != 'i';
    }
  }

  /** The controller named in the link target of the source's test is found. */
  lemma FixtureControllerName()
    ensures ExtractControllerName(Join(FixtureLinkSegments, "/")) == "i2c_designware.5"
  {
    FixtureLinkSplit();
    FixtureLinkKinds();
  }

  /** The first `i2c-N` segment gives the bus; `i2c-PIXA3854:00` after it is not a number anyway. */
  lemma FixtureBusNum()
    ensures ExtractBusNum(Join(FixtureLinkSegments, "/")) == 5
  {
    FixtureLinkSplit();
    FixtureLinkKinds();
  }
}
