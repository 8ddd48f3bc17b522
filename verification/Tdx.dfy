/**
 * The TDX half of the attestation. The TDX module behind the two character devices is a pair
 * of functions; what the service relies on is `Ideal`.
 */
module Tdx {
  import opened Wrappers
  import opened Text

  const REPORTDATA_LEN := 64
  const TDREPORT_LEN := 1024
  const TDREPORT_REPORTDATA_OFFSET := 0x80
  const TDX_SUCCESS := 0

  /** `TDG.MR.REPORT` and `TDG.MR.VERIFYREPORT`. */
  datatype Device = Device(report: Bytes -> Bytes, verify: Bytes -> nat)

  /** How opening a device node and issuing the ioctl on it goes. */
  datatype Access = Present | Missing | Broken

  /** The module answers with a full report, binds REPORTDATA, and accepts its own MAC. */
  ghost predicate Ideal(dev: Device) {
    forall data: Bytes {:trigger dev.report(data)} | |data| == REPORTDATA_LEN ::
      && |dev.report(data)| == TDREPORT_LEN
      && ReportDataOf(dev.report(data)) == Ok(data)
      && dev.verify(dev.report(data)) == TDX_SUCCESS
  }

  function Zeros(n: nat): (b: Bytes)
    ensures |b| == n && forall i | 0 <= i < n :: b[i] == 0
  {
    seq(n, _ => 0)
  }

  /** REPORTDATA for a challenge: the challenge, zero-padded; longer ones cannot be bound. */
  function ReportData(nonce: Bytes): (r: Result<Bytes, Error>)
    ensures r.Ok? <==> |nonce| <= REPORTDATA_LEN
    ensures r.Ok? ==> |r.value| == REPORTDATA_LEN && nonce <= r.value
  {
    if |nonce| > REPORTDATA_LEN then Err(InvalidInput)
    else Ok(nonce + Zeros(REPORTDATA_LEN - |nonce|))
  }

  /** A challenge without the zeros at its end. */
  function Stripped(b: Bytes): (s: Bytes)
    ensures |s| <= |b| && (s != [] ==> s[|s| - 1] != 0)
  {
    if b != [] && b[|b| - 1] == 0 then Stripped(b[..|b| - 1]) else b
  }

  function Padded(b: Bytes): (p: Bytes)
    requires |b| <= REPORTDATA_LEN
    ensures |p| == REPORTDATA_LEN
  {
    b + Zeros(REPORTDATA_LEN - |b|)
  }

  lemma {:induction false} PaddingOfStripped(b: Bytes)
    requires |b| <= REPORTDATA_LEN
    ensures ReportData(b) == Ok(Padded(Stripped(b)))
  {
    if b != [] && b[|b| - 1] == 0 {
      var short := b[..|b| - 1];
      PaddingOfStripped(short);
      assert Padded(b) == Padded(short);
    }
  }

  lemma PaddingTellsLength(s: Bytes, t: Bytes)
    requires |s| <= REPORTDATA_LEN && |t| <= REPORTDATA_LEN && Padded(s) == Padded(t)
    requires t != [] ==> t[|t| - 1] != 0
    ensures |t| <= |s|
  {
    assert forall k | |s| <= k < REPORTDATA_LEN :: Padded(s)[k] == 0;
    assert forall k | 0 <= k < |t| :: Padded(t)[k] == t[k];
  }

  lemma PaddingTellsStripped(s: Bytes, t: Bytes)
    requires |s| <= REPORTDATA_LEN && |t| <= REPORTDATA_LEN && Padded(s) == Padded(t)
    requires (s != [] ==> s[|s| - 1] != 0) && (t != [] ==> t[|t| - 1] != 0)
    ensures s == t
  {
    PaddingTellsLength(s, t);
    PaddingTellsLength(t, s);
    assert s == Padded(s)[..|s|] && t == Padded(t)[..|t|];
  }

  /** Zero-padding binds a challenge up to the zeros at its end, and no further. */
  lemma PaddingBindsExactly(a: Bytes, b: Bytes)
    requires |a| <= REPORTDATA_LEN && |b| <= REPORTDATA_LEN
    ensures ReportData(a) == ReportData(b) <==> Stripped(a) == Stripped(b)
  {
    PaddingOfStripped(a);
    PaddingOfStripped(b);
    hide ReportData, Stripped, Padded;
    if Padded(Stripped(a)) == Padded(Stripped(b)) {
      PaddingTellsStripped(Stripped(a), Stripped(b));
    }
  }

  /** `tdreport_reportdata`. */
  function ReportDataOf(report: Bytes): Result<Bytes, Error> {
    if |report| != TDREPORT_LEN then Err(InvalidInput)
    else Ok(report[TDREPORT_REPORTDATA_OFFSET..TDREPORT_REPORTDATA_OFFSET + REPORTDATA_LEN])
  }

  /** What `generate_tdx_report` answers. */
  function Generated(dev: Device, access: Access, nonce: Bytes): Result<Bytes, Error> {
    match ReportData(nonce)
    case Err(e) => Err(e)
    case Ok(data) =>
      match access
      case Missing => Err(NotImplemented)
      case Broken => Err(Internal)
      case Present => Ok(dev.report(data))
  }

  /** What `verify_tdx_report` answers. */
  function Verified(dev: Device, access: Access, report: Bytes): Result<bool, Error> {
    if |report| != TDREPORT_LEN then Err(InvalidInput)
    else
      match access
      case Missing => Err(NotImplemented)
      case Broken => Err(Internal)
      case Present => Ok(dev.verify(report) == TDX_SUCCESS)
  }

  /** The request structure of `TDX_CMD_GET_REPORT0`; the ioctl overwrites `tdreport`. */
  class ReportRequest {
    var reportdata: array<byte>
    var tdreport: array<byte>

    constructor ()
      ensures fresh(reportdata) && fresh(tdreport)
      ensures reportdata.Length == REPORTDATA_LEN && tdreport.Length == TDREPORT_LEN
      ensures forall i | 0 <= i < REPORTDATA_LEN :: reportdata[i] == 0
    {
      reportdata := new byte[REPORTDATA_LEN](_ => 0);
      tdreport := new byte[TDREPORT_LEN](_ => 0);
    }

    /** The buffer gets the challenge in front; what follows stays zero. */
    method SetReportData(nonce: Bytes) returns (r: Result<(), Error>)
      requires reportdata.Length == REPORTDATA_LEN
      requires forall i | 0 <= i < REPORTDATA_LEN :: reportdata[i] == 0
      modifies reportdata
      ensures r.Ok? <==> ReportData(nonce).Ok?
      ensures r.Err? ==> r.error == InvalidInput && reportdata[..] == old(reportdata[..])
      ensures r.Ok? ==> reportdata[..] == ReportData(nonce).value
    {
      if |nonce| > REPORTDATA_LEN {
        return Err(InvalidInput);
      }
      for i := 0 to |nonce|
        invariant forall k | 0 <= k < REPORTDATA_LEN ::
          reportdata[k] == if k < i then nonce[k] else 0
      {
        reportdata[i] := nonce[i];
      }
      return Ok(());
    }

    /** The ioctl: the device reads `reportdata` and fills `tdreport`. */
    method Issue(dev: Device, works: bool) returns (ok: bool)
      requires Ideal(dev) && reportdata != tdreport
      requires reportdata.Length == REPORTDATA_LEN && tdreport.Length == TDREPORT_LEN
      modifies tdreport
      ensures ok == works
      ensures ok ==> tdreport[..] == dev.report(reportdata[..])
    {
      if !works {
        return false;
      }
      var report := dev.report(reportdata[..]);
      for i := 0 to TDREPORT_LEN
        invariant reportdata[..] == old(reportdata[..])
        invariant tdreport[..i] == report[..i]
      {
        tdreport[i] := report[i];
      }
      return true;
    }
  }

  method GenerateTdxReport(dev: Device, access: Access, nonce: Bytes) returns (r: Result<Bytes, Error>)
    requires Ideal(dev)
    ensures r == Generated(dev, access, nonce)
    ensures r.Ok? ==> ReportDataOf(r.value) == ReportData(nonce)
  {
    var req := new ReportRequest();
    var filled := req.SetReportData(nonce);
    if filled.Err? {
      return Err(filled.error);
    }
    if access.Missing? {
      return Err(NotImplemented);
    }
    var ok := req.Issue(dev, access.Present?);
    if !ok {
      return Err(Internal);
    }
    r := Ok(req.tdreport[..]);
  }

  /** A generated report carries the padded challenge and is accepted by the same module. */
  lemma ReportAccepted(dev: Device, nonce: Bytes)
    requires Ideal(dev) && |nonce| <= REPORTDATA_LEN
    ensures
      var r := Generated(dev, Present, nonce);
      && r.Ok? && ReportDataOf(r.value) == ReportData(nonce) && Verified(dev, Present, r.value) == Ok(true)
  {
    var data := ReportData(nonce).value;
    assert |dev.report(data)| == TDREPORT_LEN;
  }
}
