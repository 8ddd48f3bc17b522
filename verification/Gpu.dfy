/** The parser of the report that the vendor's GPU attestation tool prints. */
module Gpu {
  import opened Wrappers
  import opened Text
  import opened Decimal

  datatype CertChain = CertChain(status: Option<string>, ocsp: Option<string>, expires: Option<string>)

  datatype Device = Device(
    index: nat,
    deviceType: Option<string>, hardwareModel: Option<string>, ueid: Option<string>,
    vbiosVersion: Option<string>, driverVersion: Option<string>, measurementResult: Option<string>,
    certChains: map<string, CertChain>)

  datatype Attestation = Attestation(devices: seq<Device>, summary: Option<string>, successful: bool)

  const EMPTY_CHAIN := CertChain(None, None, None)

  function NewDevice(index: nat): Device {
    Device(index, None, None, None, None, None, None, map[])
  }

  // ----- text -----

  function StripReturn(s: string): string {
    if s != [] && s[|s| - 1] == '\r' then s[..|s| - 1] else s
  }

  /** `str::lines`. */
  function Lines(text: string): seq<string>
    decreases |text|
  {
    if text == [] then []
    else
      match SplitOnce(text, '\n')
      case None => [text]
      case Some((line, rest)) => [StripReturn(line)] + Lines(rest)
  }

  const U32: nat := 0x1_0000_0000

  /** `parse::<u32>`. */
  function ParseU32(s: string): Option<nat> {
    var digits := if s != [] && s[0] == '+' then s[1..] else s;
    if digits == [] || !AllDigits(digits) || FromDecimal(digits) >= U32 then None
    else Some(FromDecimal(digits))
  }

  function TrimColons(s: string): string {
    if s != [] && s[|s| - 1] == ':' then TrimColons(s[..|s| - 1]) else s
  }

  const DEVICE_PREFIX := "- Device "
  const CHAIN_SUFFIX := "Cert Chain"
  const OCSP_PREFIX := "OCSP:"

  /** What one line of the report is. */
  datatype Line =
    | Blank
    | Header(index: Option<nat>)
    | ChainName(name: string)
    | KeyValue(key: string, value: string)
    | Plain

  function ReadLine(raw: string): Line {
    var trimmed := Trim(raw);
    if trimmed == [] then Blank
    else if DEVICE_PREFIX <= trimmed then
      Header(ParseU32(Trim(TrimColons(trimmed[|DEVICE_PREFIX|..]))))
    else
      match SplitOnce(trimmed, ':')
      case None => Plain
      case Some((key, value)) =>
        if EndsWith(Trim(key), CHAIN_SUFFIX) then ChainName(Trim(key)) else KeyValue(Trim(key), Trim(value))
  }

  /** `split_status_ocsp`. */
  function SplitStatusOcsp(value: string): (string, Option<string>) {
    match SplitOnce(value, ',')
    case None => (Trim(value), None)
    case Some((status, rest)) =>
      var r := Trim(rest);
      (Trim(status), if OCSP_PREFIX <= r then Some(Trim(r[|OCSP_PREFIX|..])) else None)
  }

  // ----- what a line means inside a device -----

  const FIELD_NAMES: seq<string> := [
    "Device Type", "Hardware Model", "UEID", "VBIOS Version", "Driver Version", "Measurement Result"]

  predicate IsChainKey(key: string) {
    key == "Status" || key == "OCSP" || key == "Expires"
  }

  function FieldOf(d: Device, key: string): Option<string> {
    if key == "Device Type" then d.deviceType
    else if key == "Hardware Model" then d.hardwareModel
    else if key == "UEID" then d.ueid
    else if key == "VBIOS Version" then d.vbiosVersion
    else if key == "Driver Version" then d.driverVersion
    else if key == "Measurement Result" then d.measurementResult
    else None
  }

  /** The device with one field set; a key that is no field changes nothing. */
  function WithField(d: Device, key: string, value: string): Device {
    if key == "Device Type" then d.(deviceType := Some(value))
    else if key == "Hardware Model" then d.(hardwareModel := Some(value))
    else if key == "UEID" then d.(ueid := Some(value))
    else if key == "VBIOS Version" then d.(vbiosVersion := Some(value))
    else if key == "Driver Version" then d.(driverVersion := Some(value))
    else if key == "Measurement Result" then d.(measurementResult := Some(value))
    else d
  }

  function WithEntry(c: CertChain, key: string, value: string): CertChain {
    if key == "Status" then
      var (status, ocsp) := SplitStatusOcsp(value);
      c.(status := Some(status), ocsp := if ocsp.Some? then ocsp else c.ocsp)
    else if key == "OCSP" then c.(ocsp := Some(value))
    else if key == "Expires" then c.(expires := Some(value))
    else c
  }

  predicate OnChain(d: Device, chain: Option<string>) {
    chain.Some? && chain.value in d.certChains
  }

  /** The device after one line of its body, `chain` being the chain last named. */
  function Noted(d: Device, chain: Option<string>, line: Line): Device {
    match line
    case ChainName(name) =>
      if name in d.certChains then d else d.(certChains := d.certChains[name := EMPTY_CHAIN])
    case KeyValue(key, value) =>
      if OnChain(d, chain) && IsChainKey(key) then
        d.(certChains := d.certChains[chain.value := WithEntry(d.certChains[chain.value], key, value)])
      else WithField(d, key, value)
    case _ => d
  }

  function ChainAfter(chain: Option<string>, line: Line): Option<string> {
    if line.ChainName? then Some(line.name) else chain
  }

  /** Whether a line has a meaning of its own; any other line is taken for the summary. */
  predicate Claimed(inDevice: bool, onChain: bool, line: Line) {
    match line
    case KeyValue(key, _) => inDevice && ((onChain && IsChainKey(key)) || key in FIELD_NAMES)
    case Plain => false
    case _ => true
  }

  // ----- the report, block by block -----

  predicate IsHeader(raw: string) {
    ReadLine(raw).Header?
  }

  /** The number of lines before the next header. */
  function BodyLength(lines: seq<string>): (n: nat)
    ensures n <= |lines|
    ensures n < |lines| ==> IsHeader(lines[n])
    ensures forall i | 0 <= i < n :: !IsHeader(lines[i])
  {
    if lines == [] || IsHeader(lines[0]) then 0 else 1 + BodyLength(lines[1..])
  }

  function Filled(d: Device, chain: Option<string>, body: seq<string>): Device
    decreases |body|
  {
    if body == [] then d
    else
      var line := ReadLine(body[0]);
      Filled(Noted(d, chain, line), ChainAfter(chain, line), body[1..])
  }

  /** The printed index, or the device's position when that cannot be parsed. */
  function IndexOf(header: string, position: nat): nat {
    var line := ReadLine(header);
    if line.Header? && line.index.Some? then line.index.value else position % U32
  }

  /** A device is its header, its position, and the lines of its body. */
  function DeviceOf(header: string, position: nat, body: seq<string>): Device {
    Filled(NewDevice(IndexOf(header, position)), None, body)
  }

  function DevicesFrom(lines: seq<string>, position: nat): seq<Device>
    decreases |lines|
  {
    if lines == [] then []
    else if IsHeader(lines[0]) then
      [DeviceOf(lines[0], position, lines[1..][..BodyLength(lines[1..])])] + DevicesFrom(lines[1..], position + 1)
    else DevicesFrom(lines[1..], position)
  }

  /** Is line `i` below some device's header? */
  predicate InDevice(lines: seq<string>, i: nat)
    requires i <= |lines|
  {
    exists h | 0 <= h < i :: IsHeader(lines[h])
  }

  /** Was a chain named before line `i`, and no device begun since? */
  predicate UnderChain(lines: seq<string>, i: nat)
    requires i <= |lines|
  {
    i > 0 && !IsHeader(lines[i - 1]) && (ReadLine(lines[i - 1]).ChainName? || UnderChain(lines, i - 1))
  }

  predicate Unclaimed(lines: seq<string>, i: nat)
    requires i < |lines|
  {
    !Claimed(InDevice(lines, i), UnderChain(lines, i), ReadLine(lines[i]))
  }

  /** The last unclaimed one of the first `n` lines. */
  function SummaryOf(lines: seq<string>, n: nat): Option<string>
    requires n <= |lines|
  {
    if n == 0 then None
    else if Unclaimed(lines, n - 1) then Some(Trim(lines[n - 1]))
    else SummaryOf(lines, n - 1)
  }

  predicate Successful(summary: Option<string>) {
    summary.Some? && Contains(Lower(summary.value), "successful")
  }

  /** The meaning of a report. */
  function Parse(text: string): Attestation {
    var lines := Lines(text);
    var summary := SummaryOf(lines, |lines|);
    Attestation(DevicesFrom(lines, 0), summary, Successful(summary))
  }

  // ----- the parser -----

  /** What the loop holds between two lines. */
  datatype Progress = Progress(
    devices: seq<Device>, current: Option<Device>, chain: Option<string>, summary: Option<string>)

  const START := Progress([], None, None, None)

  function Closed(p: Progress): seq<Device> {
    p.devices + if p.current.Some? then [p.current.value] else []
  }

  /** All devices of a report that has been read up to `rest`. */
  function Completed(p: Progress, rest: seq<string>): seq<Device> {
    if p.current.None? then p.devices + DevicesFrom(rest, |p.devices|)
    else
      p.devices + ([Filled(p.current.value, p.chain, rest[..BodyLength(rest)])]
                   + DevicesFrom(rest, |p.devices| + 1))
  }

  predicate ChainIsKnown(p: Progress) {
    p.current.Some? && p.chain.Some? ==> p.chain.value in p.current.value.certChains
  }

  lemma CompletedAtHeader(p: Progress, rest: seq<string>)
    requires rest != [] && IsHeader(rest[0])
    ensures
      var devices := Closed(p);
      var device := NewDevice(IndexOf(rest[0], |devices|));
      Completed(p, rest) == Completed(Progress(devices, Some(device), None, p.summary), rest[1..])
  {
    hide ReadLine, IsHeader, IndexOf;
    var devices, none := Closed(p), rest[..0];
    if p.current.Some? {
      assert none == [];
      AssocDevices(p.devices, [p.current.value], DevicesFrom(rest, |devices|));
    }
  }

  lemma AssocDevices(a: seq<Device>, b: seq<Device>, c: seq<Device>)
    ensures a + b + c == a + (b + c)
  {
  }

  lemma CompletedInBody(p: Progress, rest: seq<string>)
    requires rest != [] && !IsHeader(rest[0])
    ensures
      var line := ReadLine(rest[0]);
      var current := if p.current.Some? then Some(Noted(p.current.value, p.chain, line)) else None;
      forall summary ::
        Completed(p, rest) == Completed(Progress(p.devices, current, ChainAfter(p.chain, line), summary), rest[1..])
  {
    hide ReadLine, Noted, ChainAfter;
    var n := BodyLength(rest);
    assert rest[..n][1..] == rest[1..][..n - 1];
  }

  lemma NothingLeft(p: Progress, rest: seq<string>)
    requires rest == []
    ensures Completed(p, rest) == Closed(p)
  {
    assert rest[..BodyLength(rest)] == [];
  }

  /** The loop's state after one more line. */
  function Step(p: Progress, raw: string): Progress {
    var line := ReadLine(raw);
    if line.Header? then Progress(Closed(p), Some(NewDevice(IndexOf(raw, |Closed(p)|))), None, p.summary)
    else
      Progress(p.devices,
               if p.current.Some? then Some(Noted(p.current.value, p.chain, line)) else None,
               ChainAfter(p.chain, line),
               if Claimed(p.current.Some?, p.chain.Some?, line) then p.summary else Some(Trim(raw)))
  }

  function Run(p: Progress, lines: seq<string>): Progress
    decreases |lines|
  {
    if lines == [] then p else Run(Step(p, lines[0]), lines[1..])
  }

  lemma HeadersAreClaimed(inDevice: bool, onChain: bool, line: Line)
    ensures line.Header? ==> Claimed(inDevice, onChain, line)
  {
  }

  lemma InDeviceStep(lines: seq<string>, n: nat)
    requires n < |lines|
    ensures InDevice(lines, n + 1) <==> InDevice(lines, n) || IsHeader(lines[n])
  {
  }

  /** Reading the rest of a report line by line completes what its blocks mean. */
  lemma {:induction false} RunIsBlockwise(lines: seq<string>, n: nat, p: Progress)
    requires n <= |lines|
    requires p.current.Some? == InDevice(lines, n) && p.chain.Some? == UnderChain(lines, n)
    requires p.summary == SummaryOf(lines, n)
    ensures
      var end := Run(p, lines[n..]);
      Closed(end) == Completed(p, lines[n..]) && end.summary == SummaryOf(lines, |lines|)
    decreases |lines| - n
  {
    hide ReadLine, Noted, Claimed, DevicesFrom, BodyLength, Filled;
    var rest := lines[n..];
    if n == |lines| {
      NothingLeft(p, rest);
    } else {
      assert rest[1..] == lines[n + 1..] && rest[0] == lines[n];
      if IsHeader(rest[0]) {
        CompletedAtHeader(p, rest);
      } else {
        CompletedInBody(p, rest);
      }
      InDeviceStep(lines, n);
      assert Step(p, lines[n]).current.Some? == InDevice(lines, n + 1);
      assert Step(p, lines[n]).chain.Some? == UnderChain(lines, n + 1);
      assert SummaryOf(lines, n + 1) == if Unclaimed(lines, n) then Some(Trim(lines[n])) else SummaryOf(lines, n);
      assert IsHeader(lines[n]) ==> !Unclaimed(lines, n) by {
        HeadersAreClaimed(InDevice(lines, n), UnderChain(lines, n), ReadLine(lines[n]));
      }
      RunIsBlockwise(lines, n + 1, Step(p, lines[n]));
    }
  }

  /** A `key: value` line inside a device; `claimed` tells whether it meant anything. */
  method TakeKeyValue(device: Device, chain: Option<string>, key: string, value: string)
    returns (updated: Device, claimed: bool)
    requires chain.Some? ==> chain.value in device.certChains
    ensures updated == Noted(device, chain, KeyValue(key, value))
    ensures claimed == Claimed(true, chain.Some?, KeyValue(key, value))
  {
    hide SplitStatusOcsp;
    updated, claimed := device, true;
    if chain.Some? && chain.value in device.certChains {
      var entry := device.certChains[chain.value];
      if key == "Status" {
        var (status, ocsp) := SplitStatusOcsp(value);
        entry := entry.(status := Some(status));
        if ocsp.Some? {
          entry := entry.(ocsp := ocsp);
        }
        updated := device.(certChains := device.certChains[chain.value := entry]);
        return;
      } else if key == "OCSP" {
        updated := device.(certChains := device.certChains[chain.value := entry.(ocsp := Some(value))]);
        return;
      } else if key == "Expires" {
        updated := device.(certChains := device.certChains[chain.value := entry.(expires := Some(value))]);
        return;
      }
    }
    if key == "Device Type" {
      updated := device.(deviceType := Some(value));
    } else if key == "Hardware Model" {
      updated := device.(hardwareModel := Some(value));
    } else if key == "UEID" {
      updated := device.(ueid := Some(value));
    } else if key == "VBIOS Version" {
      updated := device.(vbiosVersion := Some(value));
    } else if key == "Driver Version" {
      updated := device.(driverVersion := Some(value));
    } else if key == "Measurement Result" {
      updated := device.(measurementResult := Some(value));
    } else {
      claimed := false;
    }
  }

  /** One line of the loop: skip it, begin a device, name a chain, fill in a field, or keep it as the summary. */
  method TakeLine(p: Progress, raw: string) returns (next: Progress)
    requires ChainIsKnown(p)
    ensures ChainIsKnown(next) && next == Step(p, raw)
  {
    hide Trim, TrimColons, ParseU32, EndsWith;
    var trimmed := Trim(raw);
    next := p;
    if trimmed == [] {
      return;
    }
    if DEVICE_PREFIX <= trimmed {
      var rest := trimmed[|DEVICE_PREFIX|..];
      var devices := p.devices;
      if p.current.Some? {
        devices := devices + [p.current.value];
      }
      var index := ParseU32(Trim(TrimColons(rest)));
      next := Progress(devices, Some(NewDevice(if index.Some? then index.value else |devices| % U32)), None, p.summary);
      return;
    }
    var split := SplitOnce(trimmed, ':');
    if split.Some? {
      var key, value := Trim(split.value.0), Trim(split.value.1);
      if EndsWith(key, CHAIN_SUFFIX) {
        next := p.(chain := Some(key));
        if p.current.Some? && key !in p.current.value.certChains {
          next := next.(current :=
            Some(p.current.value.(certChains := p.current.value.certChains[key := EMPTY_CHAIN])));
        }
        return;
      }
      if p.current.Some? {
        var device, claimed := TakeKeyValue(p.current.value, p.chain, key, value);
        next := p.(current := Some(device));
        if claimed {
          return;
        }
      }
    }
    next := next.(summary := Some(trimmed));
  }

  /** `parse_gpu_attestation`: the loop means what the report says block by block. */
  method ParseGpuAttestation(text: string) returns (result: Attestation)
    ensures result == Parse(text)
  {
    var p := START;
    var lines := Lines(text);
    hide Step, DevicesFrom, Contains;
    assert lines[0..] == lines;
    for n := 0 to |lines|
      invariant ChainIsKnown(p)
      invariant Run(p, lines[n..]) == Run(START, lines)
    {
      assert lines[n..][1..] == lines[n + 1..];
      p := TakeLine(p, lines[n]);
    }
    var devices := p.devices;
    if p.current.Some? {
      devices := devices + [p.current.value];
    }
    assert lines[|lines|..] == [] && SummaryOf(lines, 0) == None;
    RunIsBlockwise(lines, 0, START);
    assert Completed(START, lines) == DevicesFrom(lines, 0);
    result := Attestation(devices, p.summary, Successful(p.summary));
  }
}
