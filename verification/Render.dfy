/** The timing record as a JSON text. */
module Render {
  import opened Wrappers
  import opened Text
  import opened Decimal
  import opened Codec
  import opened Json
  import opened Metrics

  // ----- the document of a record -----

  /** The items from the `i`-th on, and then `tail`. */
  function ItemsFrom(items: seq<Sample>, i: nat, tail: Members): Members
    requires i <= |items|
    decreases |items| - i
  {
    if i == |items| then tail else Member(items[i].0, Number(items[i].1), ItemsFrom(items, i + 1, tail))
  }

  /** The units and, at their end, the counters. */
  function UnitMembers(units: seq<Sample>, counters: seq<Sample>): Members {
    ItemsFrom(units, 0, ItemsFrom(counters, 0, NoMembers))
  }

  /** What is rendered besides the buckets. */
  datatype Header = Header(ts: string, route: string, status: nat, warm: bool, concurrency: nat, e2e: nat)

  /** The members up to `last`. */
  function HeadMembers(h: Header, last: Members): Members {
    Member("ts", String(h.ts), Member("route", String(h.route), Member("http_status", Number(h.status),
    Member("warm", Bool(h.warm), Member("concurrency", Number(h.concurrency),
    Member("e2e_server_us", Number(h.e2e), Member("e2e_client_us", Null, last)))))))
  }

  /** The members of the record from `stages` on. */
  function LastMembers(stages: Members, units: Members, unattributed: int, ok: bool): Members {
    Member("stages", Object(stages), AfterStages(units, unattributed, ok))
  }

  function AfterStages(units: Members, unattributed: int, ok: bool): Members {
    Member("units", Object(units), AfterUnits(unattributed, ok))
  }

  function AfterUnits(unattributed: int, ok: bool): Members {
    Member("unattributed_us", Number(unattributed), Member("checksum_ok", Bool(ok), NoMembers))
  }

  function DocumentOf(h: Header, stages: Members, units: Members, unattributed: int, ok: bool): Value {
    Object(HeadMembers(h, LastMembers(stages, units, unattributed, ok)))
  }

  // ----- pushing text -----

  /** `escape`. */
  method EscapeText(value: string) returns (out: string)
    ensures out == Escape(value)
  {
    out := "";
    hide HexDigit;
    for i := 0 to |value|
      invariant out + Escape(value[i..]) == Escape(value)
    {
      var c := value[i];
      assert value[i..][1..] == value[i + 1..];
      PushMoves(out, EscapeChar(c), Escape(value[i + 1..]));
      if c == '\"' {
        out := out + "\\\"";
      } else if c == '\\' {
        out := out + "\\\\";
      } else if c == '\n' {
        out := out + "\\n";
      } else if c == '\r' {
        out := out + "\\r";
      } else if c == '\t' {
        out := out + "\\t";
      } else if c as int < 0x20 {
        out := out + ("\\u00" + [HexDigit(c as int / 16), HexDigit(c as int % 16)]);
      } else {
        out := out + [c];
      }
    }
    assert value[|value|..] == [];
  }

  /** `  "key": `, the key being shown as `shown`; `more` is what will follow. */
  method PushKey(s: string, depth: nat, key: string, shown: string, ghost more: string) returns (longer: string)
    requires shown == Escape(key)
    ensures longer + more == s + KeyThen(key, depth, more)
  {
    hide Escape, Indent;
    PushMoves(s, Indent(depth), "\"" + (shown + ("\"" + (": " + more))));
    longer := s + Indent(depth);
    PushMoves(longer, "\"", shown + ("\"" + (": " + more)));
    longer := longer + "\"";
    PushMoves(longer, shown, "\"" + (": " + more));
    longer := longer + shown;
    assert "\"" + (": " + more) == "\": " + more;
    PushMoves(longer, "\": ", more);
    longer := longer + "\": ";
  }

  /** One item of a bucket; the separator comes before or after it. */
  method PushItem(s: string, item: Sample, ghost more: string) returns (longer: string)
    ensures longer + more == s + KeyThen(item.0, 2, PrintNumber(item.1) + more)
  {
    hide KeyThen, PrintNumber;
    var shown := EscapeText(item.0);
    longer := PushKey(s, 2, item.0, shown, PrintNumber(item.1) + more);
    PushMoves(longer, PrintNumber(item.1), more);
    longer := longer + PrintNumber(item.1);
  }

  /** A key that is pushed as it is: nothing in it needs escaping. */
  predicate PlainKey(key: string) {
    Escape(key) == key
  }

  lemma {:induction false} LettersArePlain(key: string)
    requires forall i | 0 <= i < |key| :: 'a' <= key[i] <= 'z' || '0' <= key[i] <= '9' || key[i] == '_'
    ensures PlainKey(key)
  {
    if key != [] {
      LettersArePlain(key[1..]);
      assert [key[0]] + key[1..] == key;
    }
  }

  lemma PlainKeys()
    ensures PlainKey("ts") && PlainKey("route") && PlainKey("http_status") && PlainKey("warm")
    ensures PlainKey("concurrency") && PlainKey("e2e_server_us") && PlainKey("e2e_client_us")
    ensures PlainKey("stages") && PlainKey("units") && PlainKey("unattributed_us") && PlainKey("checksum_ok")
  {
    hide PlainKey;
    LettersArePlain("ts");
    LettersArePlain("route");
    LettersArePlain("http_status");
    LettersArePlain("warm");
    LettersArePlain("concurrency");
    LettersArePlain("e2e_server_us");
    LettersArePlain("e2e_client_us");
    LettersArePlain("stages");
    LettersArePlain("units");
    LettersArePlain("unattributed_us");
    LettersArePlain("checksum_ok");
  }

  /** What closes an inner object, and then `more`. */
  function EndThen(more: string): string {
    Indent(1) + ("}" + (",\n" + more))
  }

  lemma ItemsThen(items: seq<Sample>, i: nat, tail: Members, depth: nat, rest: string)
    requires i < |items|
    ensures
      var next := ItemsFrom(items, i + 1, tail);
      MembersThen(ItemsFrom(items, i, tail), depth, rest)
      == KeyThen(items[i].0, depth,
                 PrintNumber(items[i].1) + if next.NoMembers? then rest else ",\n" + MembersThen(next, depth, rest))
  {
  }

  /** `push_map`: an object with one line for each item, commas between them. */
  method PushMap(s: string, key: string, items: seq<Sample>, ghost more: string) returns (longer: string)
    requires PlainKey(key)
    ensures longer + more == s + KeyThen(key, 1, ValueThen(Object(ItemsFrom(items, 0, NoMembers)), 1, ",\n" + more))
  {
    ghost var rest := ",\n" + more;
    hide KeyThen, PrintNumber;
    longer := PushKey(s, 1, key, key, ValueThen(Object(ItemsFrom(items, 0, NoMembers)), 1, rest));
    if items == [] {
      assert "{}" + rest == "{},\n" + more;
      PushMoves(longer, "{},\n", more);
      longer := longer + "{},\n";
      return;
    }
    ghost var all := longer + ValueThen(Object(ItemsFrom(items, 0, NoMembers)), 1, rest);
    ghost var end := "\n" + EndThen(more);
    PushMoves(longer, "{\n", MembersThen(ItemsFrom(items, 0, NoMembers), 2, end));
    longer := longer + "{\n";
    hide MembersThen, EndThen;
    for i := 0 to |items|
      invariant i < |items| ==> longer + MembersThen(ItemsFrom(items, i, NoMembers), 2, end) == all
      invariant i == |items| ==> longer + EndThen(more) == all
    {
      ItemsThen(items, i, NoMembers, 2, end);
      ghost var below := MembersThen(ItemsFrom(items, i + 1, NoMembers), 2, end);
      var last := i + 1 == |items|;
      longer := PushItem(longer, items[i], if last then end else ",\n" + below);
      if last {
        PushMoves(longer, "\n", EndThen(more));
        longer := longer + "\n";
      } else {
        PushMoves(longer, ",\n", below);
        longer := longer + ",\n";
      }
    }
    longer := PushEnd(longer, more);
  }

  method PushEnd(s: string, ghost more: string) returns (longer: string)
    ensures longer + more == s + EndThen(more)
  {
    assert Indent(1) == "  ";
    assert EndThen(more) == "  },\n" + more;
    PushMoves(s, "  },\n", more);
    longer := s + "  },\n";
  }

  /** What is still to come of an object's members: a comma first, unless nothing has been pushed. */
  function StillToCome(members: Members, first: bool, end: string): string {
    if members.NoMembers? then end
    else if first then MembersThen(members, 2, end)
    else ",\n" + MembersThen(members, 2, end)
  }

  /** The items of one of the two buckets of `units`, a comma in front of all but the very first. */
  method PushItems(s: string, items: seq<Sample>, wasFirst: bool, ghost tail: Members, ghost end: string)
    returns (longer: string, first: bool)
    requires wasFirst ==> ItemsFrom(items, 0, tail) != NoMembers
    ensures longer + StillToCome(tail, first, end) == s + StillToCome(ItemsFrom(items, 0, tail), wasFirst, end)
    ensures first == (wasFirst && items == [])
  {
    hide KeyThen, PrintNumber, MembersThen;
    longer, first := s, wasFirst;
    ghost var all := s + StillToCome(ItemsFrom(items, 0, tail), wasFirst, end);
    for i := 0 to |items|
      invariant first == (wasFirst && i == 0)
      invariant longer + StillToCome(ItemsFrom(items, i, tail), first, end) == all
    {
      ItemsThen(items, i, tail, 2, end);
      if !first {
        PushMoves(longer, ",\n", MembersThen(ItemsFrom(items, i, tail), 2, end));
        longer := longer + ",\n";
      }
      first := false;
      longer := PushItem(longer, items[i], StillToCome(ItemsFrom(items, i + 1, tail), false, end));
    }
  }

  /** The lines of units and counters between the braces of a non-empty object. */
  method PushUnitLines(s: string, units: seq<Sample>, counters: seq<Sample>, ghost more: string)
    returns (longer: string)
    requires units != [] || counters != []
    ensures longer + more == s + ("{\n" + MembersThen(UnitMembers(units, counters), 2, "\n" + EndThen(more)))
  {
    ghost var end := "\n" + EndThen(more);
    ghost var tail := ItemsFrom(counters, 0, NoMembers);
    hide MembersThen, EndThen;
    PushMoves(s, "{\n", MembersThen(UnitMembers(units, counters), 2, end));
    longer := s + "{\n";
    var first;
    longer, first := PushItems(longer, units, true, tail, end);
    longer, first := PushItems(longer, counters, first, NoMembers, end);
    PushMoves(longer, "\n", EndThen(more));
    longer := longer + "\n";
    longer := PushEnd(longer, more);
  }

  /** `push_units`: the units and then the counters in one object. */
  method PushUnits(s: string, units: seq<Sample>, counters: seq<Sample>, ghost more: string) returns (longer: string)
    ensures longer + more == s + KeyThen("units", 1, ValueThen(Object(UnitMembers(units, counters)), 1, ",\n" + more))
  {
    ghost var rest := ",\n" + more;
    ghost var members := UnitMembers(units, counters);
    var key := "units";
    LettersArePlain(key);
    hide KeyThen, MembersThen, Escape;
    longer := PushKey(s, 1, key, key, ValueThen(Object(members), 1, rest));
    if units == [] && counters == [] {
      assert "{}" + rest == "{},\n" + more;
      PushMoves(longer, "{},\n", more);
      longer := longer + "{},\n";
    } else {
      longer := PushUnitLines(longer, units, counters, more);
    }
  }

  /** One scalar field of the record and the text behind its value. */
  method PushField(s: string, key: string, value: Value, separator: string, ghost more: string) returns (longer: string)
    requires PlainKey(key) && !value.Object?
    ensures longer + more == s + KeyThen(key, 1, ValueThen(value, 1, separator + more))
  {
    hide KeyThen, PrintNumber, PlainKey;
    assert Escape(key) == key by {
      Plain(key);
    }
    longer := PushKey(s, 1, key, key, ValueThen(value, 1, separator + more));
    match value {
      case String(text) =>
        var escaped := EscapeText(text);
        PushMoves(longer, "\"", escaped + ("\"" + (separator + more)));
        longer := longer + "\"";
        PushMoves(longer, escaped, "\"" + (separator + more));
        longer := longer + escaped;
        PushMoves(longer, "\"", separator + more);
        longer := longer + "\"";
      case Number(n) =>
        PushMoves(longer, PrintNumber(n), separator + more);
        longer := longer + PrintNumber(n);
      case Bool(b) =>
        PushMoves(longer, if b then "true" else "false", separator + more);
        longer := longer + if b then "true" else "false";
      case Null =>
        PushMoves(longer, "null", separator + more);
        longer := longer + "null";
    }
    PushMoves(longer, separator, more);
    longer := longer + separator;
  }

  lemma Plain(key: string)
    requires PlainKey(key)
    ensures Escape(key) == key
  {
  }

  // ----- the checks -----

  function Lookup(samples: seq<Sample>, name: string): Option<nat> {
    if name in NamesOf(samples) then Some(SumOf(samples, name)) else None
  }

  function Max(a: nat, b: nat): nat {
    if a >= b then a else b
  }

  function SaturatingAdd(a: nat, b: nat): nat {
    if a + b < U64 then a + b else U64 - 1
  }

  function Tolerance(e2e: nat): nat {
    Max(1_000, e2e / 20)
  }

  /** The time of the two parts of the folder measurement fits the whole; `None` on overflow. */
  function FolderFits(units: seq<Sample>, tolerance: nat): Option<bool> {
    match (Lookup(units, "measure_folder_us"), Lookup(units, "collect_regular_files_us"),
           Lookup(units, "read_and_hash_loop_us"))
    case (Some(parent), Some(a), Some(b)) =>
      var bound := parent + Max(tolerance, parent / 20);
      if bound >= U64 || a + b >= U64 then None else Some(bound >= a + b)
    case _ => Some(true)
  }

  function ReportFits(stages: seq<Sample>, units: seq<Sample>, tolerance: nat): Option<bool> {
    match (Lookup(stages, "tdx_report_us"), Lookup(units, "ioctl_get_report_us"))
    case (Some(parent), Some(child)) =>
      if parent + tolerance >= U64 then None else Some(parent + tolerance >= child)
    case _ => Some(true)
  }

  const TPM_PREFIX := "tpm2_"

  function TpmTime(items: seq<Sample>): nat {
    if items == [] then 0
    else
      var n := |items| - 1;
      TpmTime(items[..n]) + if TPM_PREFIX <= items[n].0 then items[n].1 else 0
  }

  lemma {:induction false} TpmTimeIsPartOfTheTotal(items: seq<Sample>)
    ensures TpmTime(items) <= Total(items)
  {
    if items != [] {
      TpmTimeIsPartOfTheTotal(items[..|items| - 1]);
    }
  }

  /** `checksum_ok`; `None` when a sum overflows. */
  function Checksum(e2e: nat, unattributed: int, stages: seq<Sample>, units: seq<Sample>): Option<bool> {
    var tolerance: int := Tolerance(e2e);
    var limit := SaturatingAdd(e2e, tolerance);
    var folder, report := FolderFits(units, tolerance), ReportFits(stages, units, tolerance);
    if folder.None? || report.None? then None
    else
      Some(&& -tolerance <= unattributed <= tolerance && folder.value && report.value
           && TpmTime(Merged(units)) <= limit && Total(units) <= limit)
  }

  method CheckFolder(units: Buckets, tolerance: nat) returns (fits: Option<bool>)
    requires units.Valid()
    ensures fits == FolderFits(units.samples, tolerance)
  {
    hide NamesOf, SumOf, Merged;
    var parent := units.Get("measure_folder_us");
    var a := units.Get("collect_regular_files_us");
    var b := units.Get("read_and_hash_loop_us");
    if parent.None? || a.None? || b.None? {
      return Some(true);
    }
    var bound := parent.value + Max(tolerance, parent.value / 20);
    if bound >= U64 || a.value + b.value >= U64 {
      return None;
    }
    return Some(bound >= a.value + b.value);
  }

  method CheckReport(stages: Buckets, units: Buckets, tolerance: nat) returns (fits: Option<bool>)
    requires stages.Valid() && units.Valid()
    ensures fits == ReportFits(stages.samples, units.samples, tolerance)
  {
    hide NamesOf, SumOf, Merged;
    var parent := stages.Get("tdx_report_us");
    var child := units.Get("ioctl_get_report_us");
    if parent.None? || child.None? {
      return Some(true);
    }
    if parent.value + tolerance >= U64 {
      return None;
    }
    return Some(parent.value + tolerance >= child.value);
  }

  /** `checksum_ok`, given the sum of the units. */
  method ChecksumOk(e2e: nat, unattributed: int, stages: Buckets, units: Buckets, sumUnits: nat)
    returns (ok: Option<bool>)
    requires stages.Valid() && units.Valid() && sumUnits == Total(units.samples) < U64
    ensures ok == Checksum(e2e, unattributed, stages.samples, units.samples)
  {
    var tolerance: int := Max(1_000, e2e / 20);
    var limit := SaturatingAdd(e2e, tolerance);
    var folder := CheckFolder(units, tolerance);
    var report := CheckReport(stages, units, tolerance);
    MergingKeepsTheTotal(units.samples);
    hide FolderFits, ReportFits, Merged, TpmTime;
    if folder.None? || report.None? {
      return None;
    }
    var tpm := SumTpm(units.items);
    return Some(-tolerance <= unattributed <= tolerance && folder.value && report.value
                && tpm <= limit && sumUnits <= limit);
  }

  method SumTpm(items: seq<Sample>) returns (tpm: nat)
    requires Total(items) < U64
    ensures tpm == TpmTime(items) < U64
  {
    tpm := 0;
    for i := 0 to |items|
      invariant tpm == TpmTime(items[..i]) < U64
    {
      TpmTimeIsPartOfTheTotal(items[..i + 1]);
      TotalGrows(items, i + 1);
      assert items[..i + 1][..i] == items[..i];
      if TPM_PREFIX <= items[i].0 {
        tpm := tpm + items[i].1;
      }
    }
    assert items[..|items|] == items;
  }

  /**
   * What the checks come to for any record whose residual is small and whose stages and units pass the
   * parent-and-child checks: all units together, children beside their parents, against the request.
   */
  lemma ChecksumIsTheTotal(e2e: nat, unattributed: int, stages: seq<Sample>, units: seq<Sample>)
    requires -(Tolerance(e2e) as int) <= unattributed <= Tolerance(e2e)
    requires FolderFits(units, Tolerance(e2e)) == Some(true) && ReportFits(stages, units, Tolerance(e2e)) == Some(true)
    ensures Checksum(e2e, unattributed, stages, units) == Some(Total(units) <= SaturatingAdd(e2e, Tolerance(e2e)))
  {
    hide FolderFits, ReportFits, Merged, Total, TpmTime, SaturatingAdd;
    TpmTimeIsPartOfTheTotal(Merged(units));
    MergingKeepsTheTotal(units);
  }

  // ----- the checks in plain arithmetic -----

  /** At most a millisecond, or at most a twentieth. */
  predicate Slight(excess: int, whole: nat) {
    excess <= 1_000 || 20 * excess <= whole
  }

  predicate Sampled(samples: seq<Sample>, name: string) {
    exists i | 0 <= i < |samples| :: samples[i].0 == name
  }

  /** The parts of the folder measurement exceed the whole at most slightly. */
  predicate FolderNests(units: seq<Sample>, e2e: nat) {
    Sampled(units, "measure_folder_us") && Sampled(units, "collect_regular_files_us")
    && Sampled(units, "read_and_hash_loop_us") ==>
      var whole := SumOf(units, "measure_folder_us");
      var excess := SumOf(units, "collect_regular_files_us") + SumOf(units, "read_and_hash_loop_us") - whole;
      Slight(excess, e2e) || 20 * excess <= whole
  }

  /** So does fetching the report exceed its stage. */
  predicate ReportNests(stages: seq<Sample>, units: seq<Sample>, e2e: nat) {
    Sampled(stages, "tdx_report_us") && Sampled(units, "ioctl_get_report_us") ==>
      Slight(SumOf(units, "ioctl_get_report_us") - SumOf(stages, "tdx_report_us"), e2e)
  }

  lemma ToleranceIsSlight(excess: int, e2e: nat)
    ensures excess <= Tolerance(e2e) <==> Slight(excess, e2e)
  {
  }

  lemma LookupIs(samples: seq<Sample>, name: string)
    ensures Lookup(samples, name) == if Sampled(samples, name) then Some(SumOf(samples, name)) else None
  {
    NamesAreThoseSampled(samples, name);
  }

  lemma FolderFitsExactly(units: seq<Sample>, e2e: nat)
    requires e2e < U64 / 4 && Total(units) < U64 / 4
    ensures FolderFits(units, Tolerance(e2e)) == Some(FolderNests(units, e2e))
  {
    LookupIs(units, "measure_folder_us");
    LookupIs(units, "collect_regular_files_us");
    LookupIs(units, "read_and_hash_loop_us");
    SumIsPartOfTheTotal(units, "measure_folder_us");
    SumIsPartOfTheTotal(units, "collect_regular_files_us");
    SumIsPartOfTheTotal(units, "read_and_hash_loop_us");
    var whole := SumOf(units, "measure_folder_us");
    var excess := SumOf(units, "collect_regular_files_us") + SumOf(units, "read_and_hash_loop_us") - whole;
    ToleranceIsSlight(excess, e2e);
    hide Lookup, Sampled, SumOf, Total, Slight;
    assert excess <= whole / 20 <==> 20 * excess <= whole;
  }

  lemma ReportFitsExactly(stages: seq<Sample>, units: seq<Sample>, e2e: nat)
    requires e2e < U64 / 4 && Total(stages) < U64 / 4
    ensures ReportFits(stages, units, Tolerance(e2e)) == Some(ReportNests(stages, units, e2e))
  {
    LookupIs(stages, "tdx_report_us");
    LookupIs(units, "ioctl_get_report_us");
    SumIsPartOfTheTotal(stages, "tdx_report_us");
    ToleranceIsSlight(SumOf(units, "ioctl_get_report_us") - SumOf(stages, "tdx_report_us"), e2e);
    hide Lookup, Sampled, SumOf, Total, Slight;
  }

  /**
   * What `checksum_ok` says of every record with sums below 2^62, in plain arithmetic: the residual is slight
   * either way, the folder and the report nest, and all units together exceed the request at most slightly.
   * The check on the `tpm2_` units alone never decides.
   */
  lemma PassesExactly(e2e: nat, unattributed: int, stages: seq<Sample>, units: seq<Sample>)
    requires e2e < U64 / 4 && Total(stages) < U64 / 4 && Total(units) < U64 / 4
    ensures Checksum(e2e, unattributed, stages, units) ==
            Some(&& Slight(unattributed, e2e) && Slight(-unattributed, e2e)
                 && FolderNests(units, e2e) && ReportNests(stages, units, e2e)
                 && Slight(Total(units) - e2e, e2e))
  {
    FolderFitsExactly(units, e2e);
    ReportFitsExactly(stages, units, e2e);
    ToleranceIsSlight(unattributed, e2e);
    ToleranceIsSlight(-unattributed, e2e);
    ToleranceIsSlight(Total(units) - e2e, e2e);
    TpmTimeIsPartOfTheTotal(Merged(units));
    MergingKeepsTheTotal(units);
    LimitIsSmall(e2e);
    hide FolderFits, ReportFits, FolderNests, ReportNests, Merged, Total, TpmTime, Slight;
  }

  lemma LimitIsSmall(e2e: nat)
    requires e2e < U64 / 4
    ensures e2e + Tolerance(e2e) < U64 && SaturatingAdd(e2e, Tolerance(e2e)) == e2e + Tolerance(e2e)
  {
  }

  // ----- the record -----

  /** The text of a record; `None` when one of its sums overflows. */
  function Rendering(h: Header, stages: seq<Sample>, units: seq<Sample>, counters: seq<Sample>): Option<string>
    requires h.e2e < U64
  {
    if Total(stages) >= U64 || Total(units) >= U64 then None
    else
      var unattributed := Residual(h.e2e, Total(stages));
      if unattributed.None? then None
      else
        var ok := Checksum(h.e2e, unattributed.value, stages, units);
        if ok.None? then None
        else
          Some(ValueThen(DocumentOf(h, ItemsFrom(Merged(stages), 0, NoMembers),
                                    UnitMembers(Merged(units), Merged(counters)), unattributed.value, ok.value),
                         0, "\n"))
  }

  /** The recorder's part of the document's head. */
  function HeaderOf(rec: Recorder, ts: string, status: nat, e2e: nat): Header
    reads rec
  {
    Header(ts, rec.route, status, rec.warm, rec.concurrency, e2e)
  }

  /** What follows the last member of the record. */
  function RecordEnd(): string {
    "\n" + (Indent(0) + ("}" + "\n"))
  }

  /** Pushing one scalar member of the record. */
  method PushMember(s: string, key: string, value: Value, ghost next: Members) returns (longer: string)
    requires PlainKey(key) && !value.Object? && next.Member?
    ensures longer + MembersThen(next, 1, RecordEnd()) == s + MembersThen(Member(key, value, next), 1, RecordEnd())
  {
    longer := PushField(s, key, value, ",\n", MembersThen(next, 1, RecordEnd()));
  }

  method PushHead(h: Header, ghost last: Members) returns (text: string)
    requires last.Member?
    ensures text + MembersThen(last, 1, RecordEnd()) ==
            "{\n" + MembersThen(HeadMembers(h, last), 1, RecordEnd())
  {
    PlainKeys();
    hide PlainKey, MembersThen;
    ghost var m6 := Member("e2e_client_us", Null, last);
    ghost var m5 := Member("e2e_server_us", Number(h.e2e), m6);
    ghost var m4 := Member("concurrency", Number(h.concurrency), m5);
    ghost var m3 := Member("warm", Bool(h.warm), m4);
    ghost var m2 := Member("http_status", Number(h.status), m3);
    ghost var m1 := Member("route", String(h.route), m2);
    text := PushMember("{\n", "ts", String(h.ts), m1);
    text := PushMember(text, "route", String(h.route), m2);
    text := PushMember(text, "http_status", Number(h.status), m3);
    text := PushMember(text, "warm", Bool(h.warm), m4);
    text := PushMember(text, "concurrency", Number(h.concurrency), m5);
    text := PushMember(text, "e2e_server_us", Number(h.e2e), m6);
    text := PushMember(text, "e2e_client_us", Null, last);
  }

  /** The last members of the record and the brace behind them. */
  method PushLast(
    s: string, stages: seq<Sample>, units: seq<Sample>, counters: seq<Sample>, unattributed: int, ok: bool)
    returns (text: string)
    ensures text == s + MembersThen(LastMembers(ItemsFrom(stages, 0, NoMembers), UnitMembers(units, counters),
                                                unattributed, ok), 1, RecordEnd())
  {
    PlainKeys();
    hide PlainKey, KeyThen;
    ghost var m0 := AfterUnits(unattributed, ok);
    ghost var m1 := AfterStages(UnitMembers(units, counters), unattributed, ok);
    text := PushMap(s, "stages", stages, MembersThen(m1, 1, RecordEnd()));
    text := PushUnits(text, units, counters, MembersThen(m0, 1, RecordEnd()));
    hide MembersThen, ValueThen;
    text := PushMember(text, "unattributed_us", Number(unattributed), m0.rest);
    text := PushFinal(text, ok);
  }

  method PushFinal(s: string, ok: bool) returns (text: string)
    ensures text == s + MembersThen(Member("checksum_ok", Bool(ok), NoMembers), 1, RecordEnd())
  {
    PlainKeys();
    hide PlainKey, KeyThen;
    assert RecordEnd() == "\n" + "}\n";
    text := PushField(s, "checksum_ok", Bool(ok), "\n", "}\n");
    text := text + "}\n";
  }

  /** `render`: the text is the document of everything the recorder was told. */
  method RenderRecord(rec: Recorder, ts: string, status: nat, e2e: nat) returns (text: Option<string>)
    requires rec.Valid() && e2e < U64
    ensures text ==
            Rendering(HeaderOf(rec, ts, status, e2e), rec.stages.samples, rec.units.samples, rec.counters.samples)
  {
    hide Checksum, Total, Merged, MembersThen;
    var total := rec.stages.Sum();
    var sumUnits := rec.units.Sum();
    if total.None? || sumUnits.None? {
      return None;
    }
    var unattributed := Residual(e2e, total.value);
    if unattributed.None? {
      return None;
    }
    var ok := ChecksumOk(e2e, unattributed.value, rec.stages, rec.units, sumUnits.value);
    if ok.None? {
      return None;
    }
    var h := HeaderOf(rec, ts, status, e2e);
    ghost var last := LastMembers(ItemsFrom(rec.stages.items, 0, NoMembers),
                                  UnitMembers(rec.units.items, rec.counters.items), unattributed.value, ok.value);
    var body := PushHead(h, last);
    body := PushLast(body, rec.stages.items, rec.units.items, rec.counters.items, unattributed.value, ok.value);
    text := Some(body);
  }

  // ----- the fields of a record -----

  /** The document in one piece: eleven members in this order, each with its own value. */
  lemma DocumentIs(h: Header, stages: Members, units: Members, unattributed: int, ok: bool)
    ensures DocumentOf(h, stages, units, unattributed, ok) ==
            Object(
              Member("ts", String(h.ts),
              Member("route", String(h.route),
              Member("http_status", Number(h.status),
              Member("warm", Bool(h.warm),
              Member("concurrency", Number(h.concurrency),
              Member("e2e_server_us", Number(h.e2e),
              Member("e2e_client_us", Null,
              Member("stages", Object(stages),
              Member("units", Object(units),
              Member("unattributed_us", Number(unattributed),
              Member("checksum_ok", Bool(ok), NoMembers))))))))))))
  {
  }

  // ----- reading a record back -----

  /** The items of an object all of whose members are numbers. */
  function ToItems(members: Members): seq<(string, int)> {
    match members
    case NoMembers => []
    case Member(key, value, rest) => [(key, if value.Number? then value.n else 0)] + ToItems(rest)
  }

  lemma {:induction false} ItemsAreKept(items: seq<Sample>, i: nat, tail: Members)
    requires i <= |items|
    ensures ToItems(ItemsFrom(items, i, tail)) == items[i..] + ToItems(tail)
    decreases |items| - i
  {
    if i < |items| {
      ItemsAreKept(items, i + 1, tail);
      assert items[i..] == [items[i]] + items[i + 1..];
    }
  }

  /** A reader of the rendered text gets back every field, every stage and unit in the order
      in which they were first recorded, each with the sum of its samples, and the counters. */
  lemma RecordReadsBack(h: Header, stages: seq<Sample>, units: seq<Sample>, counters: seq<Sample>)
    requires h.e2e < U64 && Rendering(h, stages, units, counters).Some?
    ensures
      var text := Rendering(h, stages, units, counters).value;
      exists s, u, residual, ok ::
        && ReadJson(text) == Some(DocumentOf(h, s, u, residual, ok))
        && ToItems(s) == Merged(stages) && ToItems(u) == Merged(units) + Merged(counters)
        && Residual(h.e2e, Total(stages)) == Some(residual) && Checksum(h.e2e, residual, stages, units) == Some(ok)
  {
    hide Checksum, Merged, ValueThen, ReadJson, Residual, Total;
    var s := ItemsFrom(Merged(stages), 0, NoMembers);
    var u := UnitMembers(Merged(units), Merged(counters));
    var residual := Residual(h.e2e, Total(stages)).value;
    var ok := Checksum(h.e2e, residual, stages, units).value;
    ItemsAreKept(Merged(stages), 0, NoMembers);
    ItemsAreKept(Merged(units), 0, ItemsFrom(Merged(counters), 0, NoMembers));
    ItemsAreKept(Merged(counters), 0, NoMembers);
    DocumentReadsBack(DocumentOf(h, s, u, residual, ok));
    assert ReadJson(Rendering(h, stages, units, counters).value) == Some(DocumentOf(h, s, u, residual, ok));
  }

  lemma {:induction false} SumIsPartOfTheTotal(samples: seq<Sample>, name: string)
    ensures SumOf(samples, name) <= Total(samples)
  {
    if samples != [] {
      SumIsPartOfTheTotal(samples[..|samples| - 1], name);
    }
  }

  /** Only sums near 2^64 keep a record from being rendered. */
  lemma SmallSumsAreRendered(h: Header, stages: seq<Sample>, units: seq<Sample>, counters: seq<Sample>)
    requires h.e2e < U64 / 4 && Total(stages) < U64 / 4 && Total(units) < U64 / 4
    ensures Rendering(h, stages, units, counters).Some?
  {
    hide NamesOf, SumOf, Total, Merged, TpmTime;
    ResidualIsTheDifference(h.e2e, Total(stages));
    SumIsPartOfTheTotal(units, "measure_folder_us");
    SumIsPartOfTheTotal(units, "collect_regular_files_us");
    SumIsPartOfTheTotal(units, "read_and_hash_loop_us");
    SumIsPartOfTheTotal(stages, "tdx_report_us");
  }
}
