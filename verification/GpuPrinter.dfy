/** The layout the vendor's tool prints, and the proof that the parser undoes it. */
module GpuPrinter {
  import opened Wrappers
  import opened Text
  import opened Decimal
  import opened Gpu

  /** A device and the order in which its certificate chains are printed. */
  datatype Sheet = Sheet(device: Device, names: seq<string>)

  const INDENT := "    "
  const DEEP := "        "

  function KeyText(indent: string, key: string, value: string): string {
    indent + (key + (": " + value))
  }

  function StatusText(s: string, o: string): string {
    s + ("," + (" OCSP: " + o))
  }

  // Lines are written in front of the lines that follow them.

  function FieldLines(d: Device, k: nat, rest: seq<string>): seq<string>
    requires k <= 6
    decreases 6 - k
  {
    if k == 6 then rest
    else
      match FieldOf(d, FIELD_NAMES[k])
      case None => FieldLines(d, k + 1, rest)
      case Some(v) => [KeyText(INDENT, FIELD_NAMES[k], v)] + FieldLines(d, k + 1, rest)
  }

  function ExpiresLine(c: CertChain, rest: seq<string>): seq<string> {
    match c.expires
    case None => rest
    case Some(e) => [KeyText(DEEP, "Expires", e)] + rest
  }

  function ChainLines(c: CertChain, rest: seq<string>): seq<string> {
    match (c.status, c.ocsp)
    case (Some(s), Some(o)) => [KeyText(DEEP, "Status", StatusText(s, o))] + ExpiresLine(c, rest)
    case (Some(s), None) => [KeyText(DEEP, "Status", s)] + ExpiresLine(c, rest)
    case (None, Some(o)) => [KeyText(DEEP, "OCSP", o)] + ExpiresLine(c, rest)
    case (None, None) => ExpiresLine(c, rest)
  }

  function AllChainLines(chains: map<string, CertChain>, names: seq<string>, rest: seq<string>): seq<string>
    requires forall i | 0 <= i < |names| :: names[i] in chains
  {
    if names == [] then rest
    else [INDENT + (names[0] + ":")] + ChainLines(chains[names[0]], AllChainLines(chains, names[1..], rest))
  }

  function DeviceLines(s: Sheet, rest: seq<string>): seq<string>
    requires Printable(s)
  {
    [DEVICE_PREFIX + (ToDecimal(s.device.index) + ":")]
    + FieldLines(s.device, 0, AllChainLines(s.device.certChains, s.names, rest))
  }

  function SheetLines(sheets: seq<Sheet>, rest: seq<string>): seq<string>
    requires AllPrintable(sheets)
  {
    if sheets == [] then rest else DeviceLines(sheets[0], SheetLines(sheets[1..], rest))
  }

  /** Whatever the tool logs first, the devices, an empty line, and the summary. */
  function ReportLines(preamble: seq<string>, sheets: seq<Sheet>, summary: string): seq<string>
    requires AllPrintable(sheets)
  {
    preamble + (["Devices:"] + SheetLines(sheets, ["", summary]))
  }

  function Joined(lines: seq<string>): string {
    if lines == [] then [] else lines[0] + ("\n" + Joined(lines[1..]))
  }

  // ----- what can be printed -----

  /** A value: one line, without white space around it. */
  predicate Value(v: string) {
    Trimmed(v) && '\n' !in v
  }

  predicate OptionalValue(v: Option<string>) {
    v.Some? ==> Value(v.value)
  }

  predicate FieldsPrintable(d: Device) {
    forall k | 0 <= k < 6 :: OptionalValue(FieldOf(d, FIELD_NAMES[k]))
  }

  predicate ChainPrintable(c: CertChain) {
    && OptionalValue(c.status) && OptionalValue(c.ocsp) && OptionalValue(c.expires)
    && (c.status.Some? ==> ',' !in c.status.value)
  }

  predicate NamePrintable(name: string) {
    Value(name) && EndsWith(name, CHAIN_SUFFIX) && ':' !in name && !(DEVICE_PREFIX <= name)
  }

  predicate NamesPrintable(chains: map<string, CertChain>, names: seq<string>) {
    && (forall i | 0 <= i < |names| ::
          names[i] in chains && NamePrintable(names[i]) && ChainPrintable(chains[names[i]]))
    && (forall i, j | 0 <= i < j < |names| :: names[i] != names[j])
  }

  predicate Printable(s: Sheet) {
    && s.device.index < U32
    && FieldsPrintable(s.device)
    && NamesPrintable(s.device.certChains, s.names)
    && (forall n | n in s.device.certChains :: n in s.names)
  }

  predicate AllPrintable(sheets: seq<Sheet>) {
    forall i | 0 <= i < |sheets| :: Printable(sheets[i])
  }

  /** A line as `lines` yields it. */
  predicate OneLine(s: string) {
    '\n' !in s && (s == [] || s[|s| - 1] != '\r')
  }

  predicate AllLines(lines: seq<string>) {
    forall i | 0 <= i < |lines| :: OneLine(lines[i])
  }

  lemma {:induction false} LinesOfJoined(lines: seq<string>)
    requires AllLines(lines)
    ensures Lines(Joined(lines)) == lines
  {
    if lines != [] {
      var rest := Joined(lines[1..]);
      LinesOfJoined(lines[1..]);
      SplitOnceAt(lines[0], '\n', rest);
      Assoc(lines[0], "\n", rest);
      assert OneLine(lines[0]) && StripReturn(lines[0]) == lines[0];
      assert [lines[0]] + lines[1..] == lines;
    }
  }

  lemma RunOne(p: Progress, raw: string, rest: seq<string>)
    ensures Run(p, [raw] + rest) == Run(Step(p, raw), rest)
    ensures OneLine(raw) && AllLines(rest) ==> AllLines([raw] + rest)
  {
    hide Step, OneLine;
    assert ([raw] + rest)[1..] == rest && ([raw] + rest)[0] == raw;
  }

  // ----- reading one printed line -----

  predicate PlainKey(key: string) {
    Value(key) && key != [] && ':' !in key && key[0] != '-' && !EndsWith(key, CHAIN_SUFFIX)
  }

  predicate Spaces(s: string) {
    forall i | 0 <= i < |s| :: s[i] == ' '
  }

  /** The text of a key line without the white space around it. */
  lemma TrimOfKeyText(indent: string, key: string, raw: string) returns (tail: string)
    requires Spaces(indent) && PlainKey(key)
    ensures Trim(KeyText(indent, key, raw)) == key + ([':'] + tail) && Trim(tail) == Trim(raw)
  {
    var start := TrimStartSplits(raw);
    var v := TrimStart(raw);
    var post := TrimEndSplits(v);
    TrimIsTrimmed(raw);
    hide TrimStart, TrimEnd, EndsWith;
    var text := Trim(raw);
    assert raw == start + text + post && text == TrimEnd(v);
    if text == [] {
      tail := "";
      var space := " " + raw;
      assert AllSpace(space);
      TrimFramed(indent, key + ":", space);
      assert KeyText(indent, key, raw) == indent + (key + ":") + space;
    } else {
      tail := " " + start + text;
      assert AllSpace(" " + start);
      TrimFramed(" " + start, text, "");
      assert " " + start + text + "" == tail;
      var shown := key + ([':'] + tail);
      assert shown[|shown| - 1] == text[|text| - 1];
      TrimFramed(indent, shown, post);
      assert KeyText(indent, key, raw) == indent + shown + post;
    }
  }

  lemma ReadKeyText(indent: string, key: string, raw: string)
    requires Spaces(indent) && PlainKey(key)
    ensures ReadLine(KeyText(indent, key, raw)) == KeyValue(key, Trim(raw))
  {
    var tail := TrimOfKeyText(indent, key, raw);
    TrimOfTrimmed(key);
    hide Trim, EndsWith;
    var trimmed := key + ([':'] + tail);
    SplitOnceAt(key, ':', tail);
    Assoc(key, [':'], tail);
    assert trimmed[0] == key[0];
  }

  lemma KeyTextIsLine(indent: string, key: string, raw: string)
    requires Spaces(indent) && PlainKey(key) && OneLine(raw)
    ensures OneLine(KeyText(indent, key, raw))
  {
    var text := KeyText(indent, key, raw);
    hide EndsWith;
    if raw == [] {
      assert text[|text| - 1] == ' ';
    } else {
      assert text[|text| - 1] == raw[|raw| - 1];
    }
  }

  lemma ReadName(name: string)
    requires NamePrintable(name)
    ensures ReadLine(INDENT + (name + ":")) == ChainName(name) && OneLine(INDENT + (name + ":"))
  {
    assert Spaces(INDENT);
    TrimFramed(INDENT, name + ":", "");
    assert INDENT + (name + ":") + "" == INDENT + (name + ":");
    TrimOfTrimmed(name);
    hide Trim;
    SplitOnceAt(name, ':', "");
    assert name + [':'] + "" == name + ":";
    assert !(DEVICE_PREFIX <= name + ":");
  }

  lemma DigitsHaveNoColon(s: string)
    requires AllDigits(s) && s != []
    ensures TrimColons(s + ":") == s && Trim(s) == s
    ensures ParseU32(s) == if FromDecimal(s) < U32 then Some(FromDecimal(s)) else None
  {
    assert (s + ":")[..|s|] == s;
    assert IsDigit(s[|s| - 1]) && IsDigit(s[0]);
    TrimOfTrimmed(s);
  }

  lemma ReadHeader(index: nat)
    requires index < U32
    ensures
      var raw := DEVICE_PREFIX + (ToDecimal(index) + ":");
      ReadLine(raw) == Header(Some(index)) && OneLine(raw)
  {
    var s := ToDecimal(index);
    var raw := DEVICE_PREFIX + (s + ":");
    DecimalRoundTrip(index);
    DigitsHaveNoColon(s);
    TrimOfTrimmed(raw);
    hide Trim, ToDecimal, TrimColons, ParseU32;
    assert raw[|DEVICE_PREFIX|..] == s + ":";
  }

  /** What is left of the OCSP part when the white space at its end is gone. */
  function OcspTail(o: string): string {
    if o == [] then "" else " " + o
  }

  lemma TrimOfStatus(s: string, o: string)
    requires Value(s) && Value(o)
    ensures Trim(StatusText(s, o)) == s + [','] + (" " + (OCSP_PREFIX + OcspTail(o)))
    ensures OneLine(StatusText(s, o))
  {
    hide Trim;
    var raw := StatusText(s, o);
    var rest := " " + (OCSP_PREFIX + OcspTail(o));
    var shown := s + [','] + rest;
    StatusEnds(s, o);
    if o == [] {
      assert raw == "" + shown + " ";
      TrimFramed("", shown, " ");
    } else {
      assert " OCSP: " + o == rest;
      Assoc(s, [','], rest);
      TrimOfTrimmed(raw);
    }
  }

  lemma StatusEnds(s: string, o: string)
    requires Value(s) && Value(o)
    ensures
      var raw := StatusText(s, o);
      && raw[|raw| - 1] == (if o == [] then ' ' else o[|o| - 1])
      && raw[0] == (if s == [] then ',' else s[0])
      && '\n' !in raw
    ensures OneLine(StatusText(s, o))
  {
  }

  lemma TrimOfOcsp(o: string)
    requires Value(o)
    ensures Trim(" " + (OCSP_PREFIX + OcspTail(o))) == OCSP_PREFIX + OcspTail(o)
    ensures Trim(OcspTail(o)) == o
  {
    hide TrimStart, TrimEnd;
    var shown := OCSP_PREFIX + OcspTail(o);
    TrimFramed(" ", shown, "");
    assert " " + shown + "" == " " + shown;
    var space := if o == [] then "" else " ";
    TrimFramed(space, o, "");
    assert space + o + "" == OcspTail(o);
  }

  /** A printed status is split into the two parts it was made of. */
  lemma StatusSplits(s: string, o: string)
    requires Value(s) && ',' !in s && Value(o)
    ensures SplitStatusOcsp(Trim(StatusText(s, o))) == (s, Some(o))
    ensures OneLine(StatusText(s, o))
  {
    var tail := OcspTail(o);
    TrimOfStatus(s, o);
    TrimOfOcsp(o);
    TrimOfTrimmed(s);
    hide Trim, StatusText, OcspTail;
    SplitOnceAt(s, ',', " " + (OCSP_PREFIX + tail));
    assert (OCSP_PREFIX + tail)[|OCSP_PREFIX|..] == tail;
  }

  lemma PlainStatus(s: string)
    requires Value(s) && ',' !in s
    ensures SplitStatusOcsp(Trim(s)) == (s, None) && OneLine(s)
  {
    TrimOfTrimmed(s);
  }

  // ----- the run over the printed lines -----

  lemma NoChainSuffix(key: string)
    requires |key| >= 2 && key[|key| - 2] != 'i'
    ensures !EndsWith(key, CHAIN_SUFFIX)
  {
    if |key| >= 10 {
      assert key[|key| - 10..][8] == key[|key| - 2];
    }
  }

  lemma ChainKeysArePlain(key: string)
    requires IsChainKey(key)
    ensures PlainKey(key)
  {
    hide EndsWith;
    NoChainSuffix(key);
  }

  lemma FieldNamesArePlain(key: string)
    requires key in FIELD_NAMES
    ensures PlainKey(key)
  {
    hide EndsWith;
    NoChainSuffix(key);
  }

  /** A key line of a device: it is filled in, and claimed. */
  lemma RunKey(p: Progress, indent: string, key: string, raw: string, rest: seq<string>)
    requires p.current.Some? && Spaces(indent) && OneLine(raw)
    requires key in FIELD_NAMES || (IsChainKey(key) && OnChain(p.current.value, p.chain))
    ensures
      var lines := [KeyText(indent, key, raw)] + rest;
      && Run(p, lines) == Run(p.(current := Some(Noted(p.current.value, p.chain, KeyValue(key, Trim(raw))))), rest)
      && (AllLines(rest) ==> AllLines(lines))
  {
    if IsChainKey(key) {
      ChainKeysArePlain(key);
    } else {
      FieldNamesArePlain(key);
    }
    hide ReadLine, Noted, Trim, FIELD_NAMES, IsHeader, PlainKey, KeyText;
    ReadKeyText(indent, key, raw);
    KeyTextIsLine(indent, key, raw);
    RunOne(p, KeyText(indent, key, raw), rest);
  }

  /** The device with its first `k` fields filled in. */
  function Partial(d: Device, k: nat): Device
    requires k <= 6
  {
    if k == 0 then NewDevice(d.index)
    else
      match FieldOf(d, FIELD_NAMES[k - 1])
      case None => Partial(d, k - 1)
      case Some(v) => WithField(Partial(d, k - 1), FIELD_NAMES[k - 1], v)
  }

  lemma PartialIsAll(d: Device)
    ensures Partial(d, 6) == d.(certChains := map[])
  {
    assert Partial(d, 1) == NewDevice(d.index).(deviceType := d.deviceType);
    assert Partial(d, 2) == Partial(d, 1).(hardwareModel := d.hardwareModel);
    assert Partial(d, 3) == Partial(d, 2).(ueid := d.ueid);
    assert Partial(d, 4) == Partial(d, 3).(vbiosVersion := d.vbiosVersion);
    assert Partial(d, 5) == Partial(d, 4).(driverVersion := d.driverVersion);
  }

  lemma NotedOffChain(d: Device, key: string, v: string)
    ensures Noted(d, None, KeyValue(key, v)) == WithField(d, key, v)
  {
  }

  lemma {:induction false} RunFields(p: Progress, d: Device, k: nat, rest: seq<string>)
    requires k <= 6 && FieldsPrintable(d)
    requires p.current == Some(Partial(d, k)) && p.chain == None
    ensures Run(p, FieldLines(d, k, rest)) == Run(p.(current := Some(Partial(d, 6))), rest)
    ensures AllLines(rest) ==> AllLines(FieldLines(d, k, rest))
    decreases 6 - k
  {
    if k < 6 {
      RunField(p, d, k, FieldLines(d, k + 1, rest));
      hide FieldOf, FIELD_NAMES, KeyText, AllLines, Run, FieldsPrintable, Partial;
      RunFields(p.(current := Some(Partial(d, k + 1))), d, k + 1, rest);
    }
  }

  lemma RunField(p: Progress, d: Device, k: nat, rest: seq<string>)
    requires k < 6 && FieldsPrintable(d)
    requires p.current == Some(Partial(d, k)) && p.chain == None
    ensures
      var v, next := FieldOf(d, FIELD_NAMES[k]), p.(current := Some(Partial(d, k + 1)));
      if v.None? then next == p
      else
        var lines := [KeyText(INDENT, FIELD_NAMES[k], v.value)] + rest;
        Run(p, lines) == Run(next, rest) && (AllLines(rest) ==> AllLines(lines))
  {
    var key := FIELD_NAMES[k];
    assert key in FIELD_NAMES && OptionalValue(FieldOf(d, key));
    hide FieldOf, WithField, FIELD_NAMES, KeyText, AllLines, Run, Noted, FieldsPrintable;
    if FieldOf(d, key).Some? {
      var v := FieldOf(d, key).value;
      TrimOfTrimmed(v);
      hide Trim;
      NotedOffChain(Partial(d, k), key, v);
      RunKey(p, INDENT, key, v, rest);
    }
  }

  function WithChain(d: Device, name: string, c: CertChain): Device {
    d.(certChains := d.certChains[name := c])
  }

  lemma NotedOnChain(d: Device, name: string, key: string, v: string)
    requires name in d.certChains && IsChainKey(key)
    ensures Noted(d, Some(name), KeyValue(key, v)) == WithChain(d, name, WithEntry(d.certChains[name], key, v))
  {
  }

  lemma WithChainTwice(d: Device, name: string, a: CertChain, b: CertChain)
    ensures WithChain(WithChain(d, name, a), name, b) == WithChain(d, name, b)
    ensures name in d.certChains && d.certChains[name] == b ==> WithChain(d, name, b) == d
  {
  }

  /** A key line of a chain. */
  lemma RunChainKey(p: Progress, key: string, raw: string, rest: seq<string>)
    requires p.current.Some? && OnChain(p.current.value, p.chain) && IsChainKey(key) && OneLine(raw)
    ensures
      var (d, name) := (p.current.value, p.chain.value);
      var lines := [KeyText(DEEP, key, raw)] + rest;
      && Run(p, lines)
         == Run(p.(current := Some(WithChain(d, name, WithEntry(d.certChains[name], key, Trim(raw))))), rest)
      && (AllLines(rest) ==> AllLines(lines))
  {
    hide Trim, KeyText, AllLines, Run, Noted, WithEntry;
    NotedOnChain(p.current.value, p.chain.value, key, Trim(raw));
    RunKey(p, DEEP, key, raw, rest);
  }

  lemma RunExpires(p: Progress, c: CertChain, rest: seq<string>)
    requires ChainPrintable(c) && p.current.Some? && OnChain(p.current.value, p.chain)
    requires p.current.value.certChains[p.chain.value] == c.(expires := None)
    ensures Run(p, ExpiresLine(c, rest)) == Run(p.(current := Some(WithChain(p.current.value, p.chain.value, c))), rest)
    ensures AllLines(rest) ==> AllLines(ExpiresLine(c, rest))
  {
    hide KeyText, AllLines, Run, WithChain;
    if c.expires.Some? {
      TrimOfTrimmed(c.expires.value);
      hide Trim;
      RunChainKey(p, "Expires", c.expires.value, rest);
    } else {
      WithChainTwice(p.current.value, p.chain.value, c, c);
    }
  }

  lemma RunStatus(p: Progress, c: CertChain, rest: seq<string>)
    requires ChainPrintable(c) && p.current.Some? && OnChain(p.current.value, p.chain)
    requires p.current.value.certChains[p.chain.value] == EMPTY_CHAIN
    ensures
      var half := c.(expires := None);
      Run(p, ChainLines(c, rest))
      == Run(p.(current := Some(WithChain(p.current.value, p.chain.value, half))), ExpiresLine(c, rest))
    ensures AllLines(ExpiresLine(c, rest)) ==> AllLines(ChainLines(c, rest))
  {
    var more, half := ExpiresLine(c, rest), c.(expires := None);
    hide KeyText, AllLines, Run, ExpiresLine, SplitStatusOcsp, WithChain, StatusText;
    match (c.status, c.ocsp) {
      case (Some(s), Some(o)) =>
        StatusSplits(s, o);
        hide Trim;
        RunChainKey(p, "Status", StatusText(s, o), more);
      case (Some(s), None) =>
        PlainStatus(s);
        hide Trim;
        RunChainKey(p, "Status", s, more);
      case (None, Some(o)) =>
        TrimOfTrimmed(o);
        hide Trim;
        RunChainKey(p, "OCSP", o, more);
      case (None, None) =>
        WithChainTwice(p.current.value, p.chain.value, half, half);
    }
  }

  /** The lines of a chain fill in the chain named above them. */
  lemma RunChain(p: Progress, c: CertChain, rest: seq<string>)
    requires ChainPrintable(c) && p.current.Some? && OnChain(p.current.value, p.chain)
    requires p.current.value.certChains[p.chain.value] == EMPTY_CHAIN
    ensures Run(p, ChainLines(c, rest)) == Run(p.(current := Some(WithChain(p.current.value, p.chain.value, c))), rest)
    ensures AllLines(rest) ==> AllLines(ChainLines(c, rest))
  {
    var d, name, half := p.current.value, p.chain.value, c.(expires := None);
    hide AllLines, Run, ExpiresLine, ChainLines;
    RunStatus(p, c, rest);
    RunExpires(p.(current := Some(WithChain(d, name, half))), c, rest);
    WithChainTwice(d, name, half, c);
  }

  function AddChains(have: map<string, CertChain>, chains: map<string, CertChain>, names: seq<string>)
    : map<string, CertChain>
    requires forall i | 0 <= i < |names| :: names[i] in chains
    decreases |names|
  {
    if names == [] then have else AddChains(have[names[0] := chains[names[0]]], chains, names[1..])
  }

  lemma {:induction false} AddChainsLookup(have: map<string, CertChain>, chains: map<string, CertChain>,
                                           names: seq<string>, n: string)
    requires forall i | 0 <= i < |names| :: names[i] in chains
    ensures n in AddChains(have, chains, names) <==> n in have || n in names
    ensures n in names ==> AddChains(have, chains, names)[n] == chains[n]
    ensures n in have && n !in names ==> AddChains(have, chains, names)[n] == have[n]
    decreases |names|
  {
    if names != [] {
      AddChainsLookup(have[names[0] := chains[names[0]]], chains, names[1..], n);
      assert names == [names[0]] + names[1..];
    }
  }

  /** Whatever the order, all chains are added. */
  lemma AllChainsAdded(chains: map<string, CertChain>, names: seq<string>)
    requires (forall i | 0 <= i < |names| :: names[i] in chains) && forall n | n in chains :: n in names
    ensures AddChains(map[], chains, names) == chains
  {
    hide AddChains;
    var all := AddChains(map[], chains, names);
    forall n: string ensures (n in all <==> n in chains) && (n in all ==> all[n] == chains[n]) {
      AddChainsLookup(map[], chains, names, n);
    }
  }

  function LastOf(chain: Option<string>, names: seq<string>): Option<string> {
    if names == [] then chain else Some(names[|names| - 1])
  }

  predicate NoneOf(d: Device, names: seq<string>) {
    forall i | 0 <= i < |names| :: names[i] !in d.certChains
  }

  lemma FirstName(d: Device, chains: map<string, CertChain>, names: seq<string>)
    requires NamesPrintable(chains, names) && NoneOf(d, names) && names != []
    ensures NamePrintable(names[0]) && ChainPrintable(chains[names[0]]) && names[0] !in d.certChains
    ensures NamesPrintable(chains, names[1..])
    ensures forall c :: NoneOf(WithChain(d, names[0], c), names[1..])
    ensures LastOf(Some(names[0]), names[1..]) == LastOf(None, names) && LastOf(None, names).Some?
  {
    hide NamePrintable, ChainPrintable;
  }

  /** The line that names a chain. */
  lemma RunName(p: Progress, name: string, rest: seq<string>)
    requires NamePrintable(name) && p.current.Some? && name !in p.current.value.certChains
    ensures
      var lines := [INDENT + (name + ":")] + rest;
      && Run(p, lines)
         == Run(p.(current := Some(WithChain(p.current.value, name, EMPTY_CHAIN)), chain := Some(name)), rest)
      && (AllLines(rest) ==> AllLines(lines))
  {
    ReadName(name);
    hide AllLines, Run, ReadLine, NamePrintable;
    RunOne(p, INDENT + (name + ":"), rest);
  }

  lemma {:induction false} RunChains(p: Progress, chains: map<string, CertChain>, names: seq<string>, rest: seq<string>)
    requires NamesPrintable(chains, names) && p.current.Some? && NoneOf(p.current.value, names)
    ensures
      var d := p.current.value;
      Run(p, AllChainLines(chains, names, rest))
      == Run(p.(current := Some(d.(certChains := AddChains(d.certChains, chains, names))),
                chain := if names == [] then p.chain else LastOf(None, names)), rest)
    ensures AllLines(rest) ==> AllLines(AllChainLines(chains, names, rest))
    decreases |names|
  {
    if names == [] {
      assert p.current.value.(certChains := p.current.value.certChains) == p.current.value;
    } else {
      var d, name, c := p.current.value, names[0], chains[names[0]];
      FirstName(d, chains, names);
      hide AllLines, Run, ChainLines, NamePrintable, ChainPrintable, NoneOf, LastOf;
      var tail := AllChainLines(chains, names[1..], rest);
      var named := p.(current := Some(WithChain(d, name, EMPTY_CHAIN)), chain := Some(name));
      RunName(p, name, ChainLines(c, tail));
      RunChain(named, c, tail);
      WithChainTwice(d, name, EMPTY_CHAIN, c);
      RunChains(named.(current := Some(WithChain(d, name, c))), chains, names[1..], rest);
    }
  }

  /** A printed device becomes the current device, whatever was current before. */
  lemma RunDevice(p: Progress, s: Sheet, rest: seq<string>)
    requires Printable(s)
    ensures Run(p, DeviceLines(s, rest))
            == Run(Progress(Closed(p), Some(s.device), LastOf(None, s.names), p.summary), rest)
    ensures AllLines(rest) ==> AllLines(DeviceLines(s, rest))
  {
    var d := s.device;
    var chainLines := AllChainLines(d.certChains, s.names, rest);
    var begun := Progress(Closed(p), Some(NewDevice(d.index)), None, p.summary);
    var raw := DEVICE_PREFIX + (ToDecimal(d.index) + ":");
    ReadHeader(d.index);
    PartialIsAll(d);
    AllChainsAdded(d.certChains, s.names);
    assert Partial(d, 0) == NewDevice(d.index);
    hide AllLines, Run, ReadLine, Partial, ToDecimal, FieldLines, AllChainLines, NamesPrintable, FieldsPrintable;
    RunOne(p, raw, FieldLines(d, 0, chainLines));
    assert Step(p, raw) == begun;
    RunFields(begun, d, 0, chainLines);
    var filled := begun.(current := Some(d.(certChains := map[])));
    RunChains(filled, d.certChains, s.names, rest);
  }

  function DevicesOf(sheets: seq<Sheet>): seq<Device> {
    seq(|sheets|, i requires 0 <= i < |sheets| => sheets[i].device)
  }

  /** The chain still open at the end of the report. */
  function OpenChain(chain: Option<string>, sheets: seq<Sheet>): Option<string> {
    if sheets == [] then chain else LastOf(None, sheets[|sheets| - 1].names)
  }

  lemma {:induction false} RunSheets(p: Progress, sheets: seq<Sheet>, rest: seq<string>) returns (q: Progress)
    requires AllPrintable(sheets)
    ensures Run(p, SheetLines(sheets, rest)) == Run(q, rest)
    ensures Closed(q) == Closed(p) + DevicesOf(sheets) && q.summary == p.summary
    ensures q.chain == OpenChain(p.chain, sheets) && (q.current.Some? <==> p.current.Some? || sheets != [])
    ensures AllLines(rest) ==> AllLines(SheetLines(sheets, rest))
    decreases |sheets|
  {
    hide AllLines, Run, Printable, DeviceLines, LastOf;
    if sheets == [] {
      q := p;
    } else {
      var s := sheets[0];
      var next := Progress(Closed(p), Some(s.device), LastOf(None, s.names), p.summary);
      RunDevice(p, s, SheetLines(sheets[1..], rest));
      q := RunSheets(next, sheets[1..], rest);
      assert DevicesOf(sheets) == [s.device] + DevicesOf(sheets[1..]);
      AssocDevices(Closed(p), [s.device], DevicesOf(sheets[1..]));
    }
  }

  predicate Foreign(preamble: seq<string>) {
    forall i | 0 <= i < |preamble| :: OneLine(preamble[i]) && !IsHeader(preamble[i])
  }

  lemma {:induction false} RunPreamble(p: Progress, preamble: seq<string>, rest: seq<string>) returns (q: Progress)
    requires Foreign(preamble) && p.current.None?
    ensures Run(p, preamble + rest) == Run(q, rest) && q.current.None? && q.devices == p.devices
    ensures AllLines(rest) ==> AllLines(preamble + rest)
    decreases |preamble|
  {
    hide ReadLine, OneLine, Run;
    if preamble == [] {
      q := p;
      assert preamble + rest == rest;
    } else {
      assert preamble + rest == [preamble[0]] + (preamble[1..] + rest);
      RunOne(p, preamble[0], preamble[1..] + rest);
      q := RunPreamble(Step(p, preamble[0]), preamble[1..], rest);
    }
  }

  const DEVICES_LINE := "Devices:"

  lemma ReadDevicesLine()
    ensures ReadLine(DEVICES_LINE) == KeyValue("Devices", "") && Trim(DEVICES_LINE) == DEVICES_LINE
    ensures OneLine(DEVICES_LINE)
  {
    hide Trim, ReadLine;
    NoChainSuffix("Devices");
    ReadKeyText("", "Devices", "");
    TrimOfTrimmed("");
    TrimOfTrimmed(DEVICES_LINE);
    TrimFramed("", DEVICES_LINE, " ");
    assert KeyText("", "Devices", "") == "" + DEVICES_LINE + " ";
    TrimDecides(DEVICES_LINE, KeyText("", "Devices", ""));
  }

  lemma TrimDecides(a: string, b: string)
    requires Trim(a) == Trim(b)
    ensures ReadLine(a) == ReadLine(b)
  {
  }

  lemma ReadEmptyLine()
    ensures ReadLine("") == Blank && OneLine("")
  {
    TrimOfTrimmed("");
  }

  lemma UnclaimedChangesNothing(d: Device, chain: Option<string>, line: Line)
    requires !Claimed(true, chain.Some?, line)
    ensures Noted(d, chain, line) == d && ChainAfter(chain, line) == chain
  {
    if line.KeyValue? {
      var key := line.key;
      assert FIELD_NAMES[0] == "Device Type" && FIELD_NAMES[1] == "Hardware Model" && FIELD_NAMES[2] == "UEID"
        && FIELD_NAMES[3] == "VBIOS Version" && FIELD_NAMES[4] == "Driver Version"
        && FIELD_NAMES[5] == "Measurement Result";
      assert WithField(d, key, line.value) == d;
    }
  }

  /** Is the line behind the devices one the parser takes for the summary? */
  predicate IsSummary(sheets: seq<Sheet>, summary: string) {
    !Claimed(sheets != [], sheets != [] && OpenChain(None, sheets).Some?, ReadLine(summary))
  }

  /** The last two lines. */
  lemma RunEnd(p: Progress, summary: string)
    ensures Run(p, ["", summary]) == Step(p, summary)
  {
    ReadEmptyLine();
    hide ReadLine;
    assert ["", summary] == [""] + [summary] && [summary] + [] == [summary];
    assert Step(p, "") == p;
    RunOne(p, "", [summary]);
    RunOne(p, summary, []);
  }

  lemma LastStep(p: Progress, sheets: seq<Sheet>, summary: string)
    requires p.current.Some? <==> sheets != []
    requires sheets != [] ==> p.chain == OpenChain(None, sheets)
    ensures
      var q := Step(p, summary);
      && (IsSummary(sheets, summary) ==> Closed(q) == Closed(p) && q.summary == Some(Trim(summary)))
      && (!IsSummary(sheets, summary) ==> q.summary == p.summary)
      && (ReadLine(summary).Blank? ==> Closed(q) == Closed(p))
  {
    if IsSummary(sheets, summary) && p.current.Some? {
      UnclaimedChangesNothing(p.current.value, p.chain, ReadLine(summary));
    }
    hide ReadLine, Trim, OpenChain, WithField, FIELD_NAMES;
  }

  lemma ReportEnds(preamble: seq<string>, sheets: seq<Sheet>, summary: string) returns (q: Progress)
    requires Foreign(preamble) && AllPrintable(sheets) && OneLine(summary)
    ensures AllLines(ReportLines(preamble, sheets, summary))
    ensures Run(START, ReportLines(preamble, sheets, summary)) == Step(q, summary)
    ensures Closed(q) == DevicesOf(sheets) && q.summary == Some(DEVICES_LINE)
    ensures (q.current.Some? <==> sheets != []) && (sheets != [] ==> q.chain == OpenChain(None, sheets))
  {
    ReadDevicesLine();
    ReadEmptyLine();
    hide ReadLine, Trim, OneLine, Run, Printable, SheetLines;
    var end := ["", summary];
    assert AllLines(end);
    var q0 := RunPreamble(START, preamble, [DEVICES_LINE] + SheetLines(sheets, end));
    RunOne(q0, DEVICES_LINE, SheetLines(sheets, end));
    q := RunSheets(Step(q0, DEVICES_LINE), sheets, end);
    RunEnd(q, summary);
  }

  /** Parsing undoes printing: every device with every field and chain, and the summary,
      which survives exactly when it is no line the last device claims. */
  lemma PrintedReportParses(preamble: seq<string>, sheets: seq<Sheet>, summary: string)
    requires Foreign(preamble) && AllPrintable(sheets) && OneLine(summary)
    ensures
      var report := Parse(Joined(ReportLines(preamble, sheets, summary)));
      && (IsSummary(sheets, summary) || ReadLine(summary).Blank? ==> report.devices == DevicesOf(sheets))
      && report.summary == Some(if IsSummary(sheets, summary) then Trim(summary) else DEVICES_LINE)
  {
    var lines := ReportLines(preamble, sheets, summary);
    var q := ReportEnds(preamble, sheets, summary);
    hide AllLines, ReportLines, Run, Trim, ReadLine, IsSummary, DevicesOf, OneLine;
    LinesOfJoined(lines);
    LastStep(q, sheets, summary);
    assert SummaryOf(lines, 0) == None && lines[0..] == lines;
    RunIsBlockwise(lines, 0, START);
    assert Completed(START, lines) == DevicesFrom(lines, 0);
  }
}
