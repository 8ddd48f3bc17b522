/** What the GPU report parser guarantees, and the printer it undoes. */
module GpuTheorems {
  import opened Wrappers
  import opened Text
  import opened Decimal
  import opened Gpu
  import opened GpuPrinter

  // ----- block structure -----

  function HeaderCount(lines: seq<string>): nat {
    if lines == [] then 0 else (if IsHeader(lines[0]) then 1 else 0) + HeaderCount(lines[1..])
  }

  /** There are as many devices as header lines. */
  lemma {:induction false} DeviceCount(lines: seq<string>, position: nat)
    ensures |DevicesFrom(lines, position)| == HeaderCount(lines)
    decreases |lines|
  {
    hide IsHeader, DeviceOf;
    if lines != [] {
      DeviceCount(lines[1..], position);
      DeviceCount(lines[1..], position + 1);
    }
  }

  /** The device of the header at line `k` depends on that line, on how many headers come
      before it, and on the lines up to the next header. */
  lemma {:induction false} DeviceAt(lines: seq<string>, position: nat, k: nat)
    requires k < |lines| && IsHeader(lines[k])
    ensures
      var c := HeaderCount(lines[..k]);
      var below := lines[k + 1..];
      && c < |DevicesFrom(lines, position)|
      && DevicesFrom(lines, position)[c] == DeviceOf(lines[k], position + c, below[..BodyLength(below)])
    decreases |lines|
  {
    hide IsHeader, DeviceOf;
    var below := lines[k + 1..];
    if k == 0 {
      assert lines[..0] == [];
    } else {
      var next := if IsHeader(lines[0]) then position + 1 else position;
      assert lines[..k][1..] == lines[1..][..k - 1] && lines[1..][k - 1] == lines[k];
      assert lines[1..][k..] == below;
      DeviceAt(lines[1..], next, k - 1);
    }
  }

  lemma NotedKeepsIndex(d: Device, chain: Option<string>, line: Line)
    ensures Noted(d, chain, line).index == d.index
  {
    hide WithEntry;
  }

  lemma {:induction false} FilledKeepsIndex(d: Device, chain: Option<string>, body: seq<string>)
    ensures Filled(d, chain, body).index == d.index
    decreases |body|
  {
    hide ReadLine, Noted;
    if body != [] {
      NotedKeepsIndex(d, chain, ReadLine(body[0]));
      FilledKeepsIndex(Noted(d, chain, ReadLine(body[0])), ChainAfter(chain, ReadLine(body[0])), body[1..]);
    }
  }

  /** The number a header shows, or the number of headers before it as 32 bits. */
  function ShownIndex(header: Line, before: nat): nat {
    if header.Header? && header.index.Some? then header.index.value else before % 0x1_0000_0000
  }

  /**
   * The index of a device is the number its header shows, or, where the header shows none, the number of
   * headers before it, as 32 bits.
   */
  lemma DeviceIndex(lines: seq<string>, k: nat)
    requires k < |lines| && ReadLine(lines[k]).Header?
    ensures HeaderCount(lines[..k]) < |DevicesFrom(lines, 0)|
    ensures DevicesFrom(lines, 0)[HeaderCount(lines[..k])].index ==
            ShownIndex(ReadLine(lines[k]), HeaderCount(lines[..k]))
  {
    hide ReadLine, DeviceOf, DevicesFrom, BodyLength, HeaderCount, IsHeader, ShownIndex;
    HeaderLine(lines[k]);
    DeviceAt(lines, 0, k);
    IndexOfDevice(lines[k], HeaderCount(lines[..k]), lines[k + 1..][..BodyLength(lines[k + 1..])]);
  }

  lemma HeaderLine(raw: string)
    requires ReadLine(raw).Header?
    ensures IsHeader(raw)
  {
  }

  lemma IndexOfDevice(header: string, position: nat, body: seq<string>)
    requires IsHeader(header)
    ensures DeviceOf(header, position, body).index == ShownIndex(ReadLine(header), position)
  {
    FilledKeepsIndex(NewDevice(IndexOf(header, position)), None, body);
    hide ReadLine, Filled;
  }

  // ----- lines, against literals -----

  /** What the number of a header is read from: the text without colons at its end and white space around it. */
  lemma {:induction false} ColonsExactly(s: string)
    ensures TrimColons(s) <= s && forall i | |TrimColons(s)| <= i < |s| :: s[i] == ':'
    ensures TrimColons(s) != "" ==> TrimColons(s)[|TrimColons(s)| - 1] != ':'
  {
    if s != [] && s[|s| - 1] == ':' {
      ColonsExactly(s[..|s| - 1]);
    }
  }

  /** A number is digits, with a plus sign in front or not, and fits 32 bits. */
  lemma NumberExactly(s: string, n: nat)
    ensures ParseU32(s) == Some(n) <==>
            exists digits: string :: && (s == digits || s == "+" + digits) && digits != ""
                                     && (forall i | 0 <= i < |digits| :: '0' <= digits[i] <= '9')
                                     && FromDecimal(digits) == n && n < 0x1_0000_0000
  {
    var digits := if s != [] && s[0] == '+' then s[1..] else s;
    if ParseU32(s) == Some(n) {
      assert s == digits || s == "+" + digits;
    }
    forall d: string | && (s == d || s == "+" + d) && d != "" && (forall i | 0 <= i < |d| :: '0' <= d[i] <= '9')
                       && FromDecimal(d) == n && n < 0x1_0000_0000
      ensures ParseU32(s) == Some(n)
    {
      assert d == digits;
    }
  }

  /** The two sides of the first colon. */
  predicate Sides(t: string, a: string, b: string) {
    t == a + ":" + b && ':' !in a
  }

  lemma SidesAreSplit(t: string)
    ensures SplitOnce(t, ':').None? <==> ':' !in t
    ensures forall a, b :: Sides(t, a, b) <==> SplitOnce(t, ':') == Some((a, b))
  {
    forall a, b | Sides(t, a, b) ensures SplitOnce(t, ':') == Some((a, b)) {
      SplitOnceAt(a, ':', b);
    }
  }

  /**
   * What a line is, by its text without the white space around it: nothing, a header behind `- Device `, the
   * name of a chain if the text before the first colon ends in `Cert Chain`, otherwise a key and its value.
   */
  lemma LineExactly(raw: string)
    ensures
      var (t, line) := (Trim(raw), ReadLine(raw));
      && (line.Blank? <==> t == "")
      && (line.Header? <==> "- Device " <= t)
      && (line.Header? ==> line.index == ParseU32(Trim(TrimColons(t[9..]))))
      && (line.Plain? <==> t != "" && !("- Device " <= t) && ':' !in t)
      && (forall a, b | !("- Device " <= t) && Sides(t, a, b) ::
            line == if EndsWith(Trim(a), "Cert Chain") then ChainName(Trim(a)) else KeyValue(Trim(a), Trim(b)))
  {
    SidesAreSplit(Trim(raw));
    hide Trim, TrimColons, ParseU32, EndsWith, Sides, SplitOnce;
  }

  /** Which field a key sets, wherever it is not a key of the chain: six keys, each its own field and nothing else. */
  lemma KeysMeanFields(d: Device, chain: Option<string>, key: string, v: string)
    requires OnChain(d, chain) ==> key != "Status" && key != "OCSP" && key != "Expires"
    ensures
      var e := Noted(d, chain, KeyValue(key, v));
      && e.deviceType == (if key == "Device Type" then Some(v) else d.deviceType)
      && e.hardwareModel == (if key == "Hardware Model" then Some(v) else d.hardwareModel)
      && e.ueid == (if key == "UEID" then Some(v) else d.ueid)
      && e.vbiosVersion == (if key == "VBIOS Version" then Some(v) else d.vbiosVersion)
      && e.driverVersion == (if key == "Driver Version" then Some(v) else d.driverVersion)
      && e.measurementResult == (if key == "Measurement Result" then Some(v) else d.measurementResult)
      && e.certChains == d.certChains && e.index == d.index
  {
    KeysDiffer();
  }

  lemma KeysDiffer()
    ensures "Device Type"[0] == "Driver Version"[0] == 'D' && "Device Type"[1] == 'e' && "Driver Version"[1] == 'r'
    ensures "Hardware Model"[0] == 'H' && "UEID"[0] == 'U'
    ensures "VBIOS Version"[0] == 'V' && "Measurement Result"[0] == 'M'
  {
  }

  /** And which entry of the chain last named: a status may have the OCSP result behind a comma. */
  lemma KeysMeanEntries(d: Device, name: string, key: string, v: string)
    requires name in d.certChains && key in ["Status", "OCSP", "Expires"]
    ensures
      var (e, c) := (Noted(d, Some(name), KeyValue(key, v)), d.certChains[name]);
      && e == d.(certChains := d.certChains[name := e.certChains[name]])
      && e.certChains[name].expires == (if key == "Expires" then Some(v) else c.expires)
      && (key == "OCSP" ==> e.certChains[name].ocsp == Some(v))
      && (key == "Expires" ==> e.certChains[name].ocsp == c.ocsp)
      && (key != "Status" ==> e.certChains[name].status == c.status)
      && (key == "Status" && ',' !in v ==>
            e.certChains[name].status == Some(Trim(v)) && e.certChains[name].ocsp == c.ocsp)
      && (key == "Status" ==> forall a, b | v == a + "," + b && ',' !in a ::
            && e.certChains[name].status == Some(Trim(a))
            && e.certChains[name].ocsp == if "OCSP:" <= Trim(b) then Some(Trim(Trim(b)[5..])) else c.ocsp)
  {
    forall a, b | v == a + "," + b && ',' !in a ensures SplitOnce(v, ',') == Some((a, b)) {
      SplitOnceAt(a, ',', b);
    }
    EntryKeysDiffer();
    hide Trim, SplitOnce;
  }

  /** Naming a chain adds it without entries, or keeps the entries it has; nothing else of the device changes. */
  lemma ChainsAreKept(d: Device, chain: Option<string>, name: string)
    ensures
      var e := Noted(d, chain, ChainName(name));
      && e == d.(certChains := e.certChains) && e.certChains.Keys == d.certChains.Keys + {name}
      && (forall n | n in d.certChains :: e.certChains[n] == d.certChains[n])
      && (name !in d.certChains ==> e.certChains[name] == CertChain(None, None, None))
  {
  }

  lemma EntryKeysDiffer()
    ensures "Status"[0] == 'S' && "OCSP"[0] == 'O' && "Expires"[0] == 'E'
  {
  }

  /** The value of the last `key:` line of a body. */
  function LastValue(body: seq<string>, key: string): Option<string> {
    if body == [] then None
    else
      var n := |body| - 1;
      var line := ReadLine(body[n]);
      if line.KeyValue? && line.key == key then Some(line.value) else LastValue(body[..n], key)
  }

  lemma {:induction false} FilledAppend(d: Device, chain: Option<string>, body: seq<string>, raw: string)
    ensures
      var (before, last) := (Filled(d, chain, body), ChainFrom(chain, body));
      Filled(d, chain, body + [raw]) == Noted(before, last, ReadLine(raw))
    decreases |body|
  {
    hide ReadLine, Noted, ChainAfter;
    if body == [] {
      assert body + [raw] == [raw] && [raw][1..] == [];
    } else {
      var line := ReadLine(body[0]);
      assert (body + [raw])[1..] == body[1..] + [raw];
      FilledAppend(Noted(d, chain, line), ChainAfter(chain, line), body[1..], raw);
    }
  }

  function ChainFrom(chain: Option<string>, body: seq<string>): Option<string>
    decreases |body|
  {
    if body == [] then chain else ChainFrom(ChainAfter(chain, ReadLine(body[0])), body[1..])
  }

  lemma NotedField(d: Device, chain: Option<string>, line: Line, key: string)
    requires key in FIELD_NAMES
    ensures FieldOf(Noted(d, chain, line), key) ==
            if line.KeyValue? && line.key == key then Some(line.value) else FieldOf(d, key)
  {
  }

  /** A field of a device is the value of the last line of its body with that key. */
  lemma {:induction false} LastLineWins(header: string, position: nat, body: seq<string>, key: string)
    requires key in FIELD_NAMES
    ensures FieldOf(DeviceOf(header, position, body), key) == LastValue(body, key)
    decreases |body|
  {
    hide ReadLine, Noted, FIELD_NAMES;
    if body != [] {
      var n := |body| - 1;
      var device := NewDevice(IndexOf(header, position));
      assert body == body[..n] + [body[n]];
      FilledAppend(device, None, body[..n], body[n]);
      NotedField(Filled(device, None, body[..n]), ChainFrom(None, body[..n]), ReadLine(body[n]), key);
      LastLineWins(header, position, body[..n], key);
    }
  }

  /** The chains of a device are the ones its body names. */
  lemma {:induction false} ChainsAreNamed(d: Device, chain: Option<string>, body: seq<string>, name: string)
    ensures name in Filled(d, chain, body).certChains <==>
            name in d.certChains || exists i | 0 <= i < |body| :: ReadLine(body[i]) == ChainName(name)
    decreases |body|
  {
    hide ReadLine, FIELD_NAMES, WithEntry;
    if body != [] {
      var line, rest := ReadLine(body[0]), body[1..];
      var next := Noted(d, chain, line);
      ChainsAreNamed(next, ChainAfter(chain, line), rest, name);
      assert name in next.certChains <==> name in d.certChains || line == ChainName(name);
      assert forall i | 0 <= i < |rest| :: rest[i] == body[i + 1];
      assert forall i | 1 <= i < |body| :: body[i] == rest[i - 1];
    }
  }

  /** The summary is the last unclaimed line, and there is none only when every line is claimed. */
  lemma {:induction false} SummaryIsLastUnclaimed(lines: seq<string>, n: nat)
    requires n <= |lines|
    ensures SummaryOf(lines, n).None? <==> forall i | 0 <= i < n :: !Unclaimed(lines, i)
    ensures SummaryOf(lines, n).Some? ==>
              exists i | 0 <= i < n :: && Unclaimed(lines, i) && SummaryOf(lines, n) == Some(Trim(lines[i]))
                                       && forall j | i < j < n :: !Unclaimed(lines, j)
  {
    hide Unclaimed;
    if n > 0 {
      SummaryIsLastUnclaimed(lines, n - 1);
      if !Unclaimed(lines, n - 1) && SummaryOf(lines, n).Some? {
        var i :| 0 <= i < n - 1 && Unclaimed(lines, i) && SummaryOf(lines, n - 1) == Some(Trim(lines[i]))
                 && forall j | i < j < n - 1 :: !Unclaimed(lines, j);
      }
    }
  }

  // ----- the flag -----

  predicate OccursAt(s: string, needle: string, i: nat) {
    i + |needle| <= |s| && s[i..i + |needle|] == needle
  }

  /** `contains` finds a text exactly when it occurs somewhere. */
  lemma {:induction false} ContainsExactly(s: string, needle: string)
    ensures Contains(s, needle) <==> exists i: nat :: OccursAt(s, needle, i)
  {
    if needle <= s {
      assert OccursAt(s, needle, 0);
    } else if s != [] {
      ContainsExactly(s[1..], needle);
      forall i: nat | OccursAt(s[1..], needle, i) ensures OccursAt(s, needle, i + 1) {
        assert s[1..][i..i + |needle|] == s[i + 1..i + 1 + |needle|];
      }
      forall i: nat | OccursAt(s, needle, i) ensures i > 0 && OccursAt(s[1..], needle, i - 1) {
        if i > 0 {
          assert s[1..][i - 1..i - 1 + |needle|] == s[i..i + |needle|];
        }
      }
    }
  }

  const SUCCESS := "successful"

  /** The line by which the tool reports overall success. */
  const DOCUMENTED := "GPU attestation was successful"

  /** The word begins at `i`, whatever its case. */
  predicate WordAt(summary: string, i: nat) {
    OccursAt(Lower(summary), SUCCESS, i)
  }

  predicate HasWord(summary: string) {
    exists i | 0 <= i < |summary| :: WordAt(summary, i)
  }

  lemma FlagIsTheWord(summary: string)
    ensures Successful(Some(summary)) <==> HasWord(summary)
  {
    var s := Lower(summary);
    ContainsExactly(s, SUCCESS);
    hide Contains, Lower;
    assert |s| == |summary|;
    if exists i: nat :: OccursAt(s, SUCCESS, i) {
      var i: nat :| OccursAt(s, SUCCESS, i);
      assert i < |summary| && WordAt(summary, i);
    }
    if HasWord(summary) {
      var i :| 0 <= i < |summary| && WordAt(summary, i);
      assert OccursAt(s, SUCCESS, i);
    }
  }

  /** Line `i` is the last one that no device claims. */
  predicate LastUnclaimed(lines: seq<string>, i: nat)
    requires i < |lines|
  {
    Unclaimed(lines, i) && forall j | i < j < |lines| :: !Unclaimed(lines, j)
  }

  /** The report ends in the documented line, as far as lines of devices do not count. */
  predicate ReportsSuccess(lines: seq<string>) {
    exists i | 0 <= i < |lines| :: LastUnclaimed(lines, i) && Trim(lines[i]) == DOCUMENTED
  }

  /** It ends in another line, and the word is in that. */
  predicate MentionsSuccess(lines: seq<string>) {
    exists i | 0 <= i < |lines| ::
      LastUnclaimed(lines, i) && HasWord(Trim(lines[i])) && Trim(lines[i]) != DOCUMENTED
  }

  lemma SummaryIs(lines: seq<string>, i: nat)
    requires i < |lines| && LastUnclaimed(lines, i)
    ensures SummaryOf(lines, |lines|) == Some(Trim(lines[i]))
  {
    hide Unclaimed, Trim;
    SummaryIsLastUnclaimed(lines, |lines|);
    var k :| 0 <= k < |lines| && Unclaimed(lines, k) && SummaryOf(lines, |lines|) == Some(Trim(lines[k]))
             && forall j | k < j < |lines| :: !Unclaimed(lines, j);
    assert k == i;
  }

  /** The documented line has the word, at its end. */
  lemma DocumentedHasWord()
    ensures HasWord(DOCUMENTED)
  {
    LineHasWord(DOCUMENTED, "gpu attestation was ");
  }

  /**
   * For every text: `successful` is never wrongly false, and it is wrongly true exactly when the last
   * line that no device claims is another than the documented one and has the word in it somewhere.
   */
  lemma FlagIsWrongExactly(text: string)
    ensures ReportsSuccess(Lines(text)) ==> Parse(text).successful
    ensures Parse(text).successful && !ReportsSuccess(Lines(text)) <==> MentionsSuccess(Lines(text))
  {
    var lines := Lines(text);
    hide Lines, Unclaimed, Trim, Successful, HasWord, DevicesFrom, LastUnclaimed, DOCUMENTED;
    DocumentedHasWord();
    forall i | 0 <= i < |lines| && LastUnclaimed(lines, i)
      ensures Parse(text).summary == Some(Trim(lines[i]))
      ensures Parse(text).successful <==> HasWord(Trim(lines[i]))
    {
      SummaryIs(lines, i);
      FlagIsTheWord(Trim(lines[i]));
    }
    if Parse(text).successful {
      var i := SummaryStands(lines);
    }
  }

  lemma SummaryStands(lines: seq<string>) returns (i: nat)
    requires Successful(SummaryOf(lines, |lines|))
    ensures i < |lines| && LastUnclaimed(lines, i)
  {
    hide Unclaimed, Trim;
    SummaryIsLastUnclaimed(lines, |lines|);
    assert SummaryOf(lines, |lines|).Some?;
    i :| 0 <= i < |lines| && Unclaimed(lines, i) && SummaryOf(lines, |lines|) == Some(Trim(lines[i]))
         && forall j | i < j < |lines| :: !Unclaimed(lines, j);
  }

  /** The flag of a printed report, for any devices and any line behind them. */
  lemma FlagOfReport(preamble: seq<string>, sheets: seq<Sheet>, summary: string)
    requires Foreign(preamble) && AllPrintable(sheets) && OneLine(summary)
    ensures
      var report := Parse(Joined(ReportLines(preamble, sheets, summary)));
      && (IsSummary(sheets, summary) ==> report.successful == Successful(Some(Trim(summary))))
      && (!IsSummary(sheets, summary) ==> !report.successful)
  {
    hide IsSummary, Successful, ReportLines, Joined, Lines, SummaryOf, DevicesFrom, Foreign, AllPrintable, OneLine;
    PrintedReportParses(preamble, sheets, summary);
    NoFlagOfDevicesLine();
  }

  /** Where the flag of a printed report is wrong, as a condition on the line behind the devices. */
  lemma PrintedFlagIsWrongExactly(preamble: seq<string>, sheets: seq<Sheet>, summary: string)
    requires Foreign(preamble) && AllPrintable(sheets) && OneLine(summary)
    ensures
      var report := Parse(Joined(ReportLines(preamble, sheets, summary)));
      && (report.summary == Some(DOCUMENTED) ==> report.successful)
      && (report.successful && report.summary != Some(DOCUMENTED)
          <==> IsSummary(sheets, summary) && HasWord(Trim(summary)) && Trim(summary) != DOCUMENTED)
  {
    hide IsSummary, Successful, ReportLines, Joined, Lines, SummaryOf, DevicesFrom, Foreign, AllPrintable, OneLine;
    hide HasWord, DOCUMENTED;
    PrintedReportParses(preamble, sheets, summary);
    FlagOfReport(preamble, sheets, summary);
    FlagIsTheWord(Trim(summary));
    DocumentedHasWord();
    DevicesLineIsNotDocumented();
  }

  lemma DevicesLineIsNotDocumented()
    ensures DEVICES_LINE != DOCUMENTED
  {
  }

  lemma NoFlagOfDevicesLine()
    ensures !Successful(Some(DEVICES_LINE))
  {
    FlagIsTheWord(DEVICES_LINE);
    hide Successful;
  }

  const FAILURE := "GPU attestation was unsuccessful"

  const DENIAL := "GPU attestation was not successful"

  /** A line that ends in the word has it. */
  lemma LineHasWord(line: string, before: string)
    requires Lower(line) == before + SUCCESS
    ensures HasWord(line)
  {
    var i := |before|;
    assert Lower(line)[i..i + |SUCCESS|] == SUCCESS;
    assert WordAt(line, i) && i < |line|;
  }

  /** A line of words that no device claims. */
  predicate PlainLine(line: string) {
    Trimmed(line) && OneLine(line) && ':' !in line && line != [] && !(DEVICE_PREFIX <= line)
  }

  lemma PlainLineIsFlagged(preamble: seq<string>, sheets: seq<Sheet>, line: string)
    requires Foreign(preamble) && AllPrintable(sheets) && PlainLine(line) && HasWord(line)
    ensures
      var report := Parse(Joined(ReportLines(preamble, sheets, line)));
      report.successful && report.summary == Some(line)
  {
    TrimOfTrimmed(line);
    PlainIsSummary(sheets, line);
    hide IsSummary, Successful, ReportLines, Joined, Lines, SummaryOf, DevicesFrom, Foreign, AllPrintable, OneLine;
    hide Trim, Trimmed, HasWord, DOCUMENTED;
    PrintedReportParses(preamble, sheets, line);
    PrintedFlagIsWrongExactly(preamble, sheets, line);
  }

  const FAILURE_LOWERED := "gpu attestation was unsuccessful"

  const DENIAL_LOWERED := "gpu attestation was not successful"

  lemma FailureLowers()
    ensures Lower(FAILURE) == FAILURE_LOWERED
  {
  }

  lemma DenialLowers()
    ensures Lower(DENIAL) == DENIAL_LOWERED
  {
  }

  lemma FailureHasWord()
    ensures HasWord(FAILURE)
  {
    FailureLowers();
    hide FAILURE, Lower;
    LineHasWord(FAILURE, FAILURE_LOWERED[..22]);
  }

  lemma DenialHasWord()
    ensures HasWord(DENIAL)
  {
    DenialLowers();
    hide DENIAL, Lower;
    LineHasWord(DENIAL, DENIAL_LOWERED[..24]);
  }

  lemma FailureIsPlain()
    ensures PlainLine(FAILURE) && FAILURE != DOCUMENTED
  {
    assert |FAILURE| == 32 && |DOCUMENTED| == 30;
  }

  lemma DenialIsPlain()
    ensures PlainLine(DENIAL) && DENIAL != DOCUMENTED
  {
    assert |DENIAL| == 34 && |DOCUMENTED| == 30;
  }

  /** Reports of failure are flagged successful, in either wording and whatever their devices. */
  lemma FailureIsFlaggedSuccessful(preamble: seq<string>, sheets: seq<Sheet>, line: string)
    requires Foreign(preamble) && AllPrintable(sheets) && (line == FAILURE || line == DENIAL)
    ensures
      var report := Parse(Joined(ReportLines(preamble, sheets, line)));
      report.successful && report.summary == Some(line) && line != DOCUMENTED
  {
    hide PlainLine, HasWord, AllPrintable, Foreign, ReportLines, Joined, Parse, FAILURE, DENIAL, DOCUMENTED;
    if line == FAILURE {
      FailureHasWord();
      FailureIsPlain();
    } else {
      DenialHasWord();
      DenialIsPlain();
    }
    PlainLineIsFlagged(preamble, sheets, line);
  }

  lemma PlainIsSummary(sheets: seq<Sheet>, summary: string)
    requires Trimmed(summary) && summary != [] && ':' !in summary && !(DEVICE_PREFIX <= summary)
    ensures IsSummary(sheets, summary)
  {
    TrimOfTrimmed(summary);
    hide Trim;
  }
}
