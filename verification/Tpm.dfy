/**
 * The TPM behind the `tpm2-*` commands, as far as the service uses it, and the files those
 * commands exchange with the service. Commands follow the TPM 2.0 Library, Part 3: PCR_Extend
 * (section 22.2), PCR_Read (22.4), PCR_Reset (22.8) and Quote (18.4).
 */
module Tpm {
  import opened Wrappers
  import opened Text
  import opened Codec
  import Tdx

  const DIGEST_LEN := 32

  const ZERO_DIGEST: Bytes := Tdx.Zeros(DIGEST_LEN)

  const HASH_ALGORITHM := "sha256"

  /** A signing key; persistent handles are numbers. */
  datatype Key = Key(id: nat)

  type Handle = nat

  /** The functions the service does not compute itself. */
  datatype Platform = Platform(
    sha256: Bytes -> Bytes,
    /* TPMS_ATTEST over the digest of the selected PCRs and the qualifying data */
    attest: (Bytes, Bytes) -> Bytes,
    sign: (Key, Bytes) -> Bytes,
    pem: Key -> string,
    /* `tpm2_checkquote`: public key, hash algorithm, message, signature, nonce */
    checkQuote: (string, string, Bytes, Bytes, string) -> bool,
    akHandle: Handle,
    /* the configured directory, as names from `/` downwards */
    measureDir: seq<Bytes>,
    tdx: Tdx.Device)

  /** Digests are 32 bytes, nothing is empty, and an honest quote checks. */
  ghost predicate Ideal(p: Platform) {
    && (forall b: Bytes :: |p.sha256(b)| == DIGEST_LEN)
    && (forall d: Bytes, q: Bytes :: p.attest(d, q) != [])
    && (forall k: Key, m: Bytes :: p.sign(k, m) != [])
    && (forall k: Key :: p.pem(k) != "")
    && (forall k: Key, d: Bytes, q: Bytes {:trigger p.sign(k, p.attest(d, q))} ::
          p.checkQuote(p.pem(k), HASH_ALGORITHM, p.attest(d, q), p.sign(k, p.attest(d, q)), ToHex(q)))
    && Tdx.Ideal(p.tdx)
  }

  /** The expectations do not contradict each other. */
  lemma IdealIsPossible() returns (p: Platform)
    ensures Ideal(p)
  {
    var report := (data: Bytes) =>
      if |data| == Tdx.REPORTDATA_LEN then Tdx.Zeros(Tdx.TDREPORT_REPORTDATA_OFFSET) + data + Tdx.Zeros(832) else [];
    p := Platform(_ => ZERO_DIGEST, (d, q) => [1] + q, (k, m) => [1] + m, k => "key",
                  (pem, hash, m, s, nonce) => true, 0, [], Tdx.Device(report, r => Tdx.TDX_SUCCESS));
    forall data: Bytes | |data| == Tdx.REPORTDATA_LEN
      ensures |report(data)| == Tdx.TDREPORT_LEN && Tdx.ReportDataOf(report(data)) == Ok(data)
    {
      assert report(data)[Tdx.TDREPORT_REPORTDATA_OFFSET..Tdx.TDREPORT_REPORTDATA_OFFSET + Tdx.REPORTDATA_LEN] == data;
    }
  }

  datatype Device = Device(started: bool, pcr: Bytes, keys: map<Handle, Key>)

  datatype FileName =
    PcrBin | EkContext | AkContext | QuoteSignature | QuoteMessage | QuotePcrs | AkPem
    | VerifySignature | VerifyMessage | VerifyPem

  datatype Content = Raw(data: Bytes) | Context(key: Key) | Pem(text: string)

  /** The files of one scratch directory. */
  type Directory = map<FileName, Content>

  datatype Command =
    | Startup
    | PcrReset
    | PcrExtend(digest: Bytes)
    | PcrRead
    | GetCapability
    | FlushContext
    | CreateEk
    | CreateAk
    | EvictControl(handle: Handle)
    | Quote(handle: Handle, qualifyingData: Bytes)
    | ReadPublic(handle: Handle)

  /** The effect of one command on TPM and files, or None when the TPM rejects it. */
  function Perform(p: Platform, tpm: Device, dir: Directory, cmd: Command, newKey: Key)
    : Option<(Device, Directory)>
  {
    if cmd.Startup? then
      if tpm.started then None else Some((tpm.(started := true, pcr := ZERO_DIGEST), dir))
    else if !tpm.started then None
    else
      match cmd
      case PcrReset => Some((tpm.(pcr := ZERO_DIGEST), dir))
      case PcrExtend(digest) =>
        if |digest| != DIGEST_LEN then None else Some((tpm.(pcr := p.sha256(tpm.pcr + digest)), dir))
      case PcrRead => Some((tpm, dir[PcrBin := Raw(tpm.pcr)]))
      case GetCapability => Some((tpm, dir))
      case FlushContext => Some((tpm, dir))
      case CreateEk => Some((tpm, dir[EkContext := Context(newKey)]))
      case CreateAk =>
        if EkContext !in dir then None else Some((tpm, dir[AkContext := Context(newKey)]))
      case EvictControl(handle) =>
        if AkContext !in dir || !dir[AkContext].Context? || handle in tpm.keys then None
        else Some((tpm.(keys := tpm.keys[handle := dir[AkContext].key]), dir))
      case Quote(handle, q) =>
        if handle !in tpm.keys then None
        else
          var message := p.attest(p.sha256(tpm.pcr), q);
          Some((tpm, dir[QuoteSignature := Raw(p.sign(tpm.keys[handle], message))]
                        [QuoteMessage := Raw(message)][QuotePcrs := Raw(tpm.pcr)]))
      case ReadPublic(handle) =>
        if handle !in tpm.keys then None else Some((tpm, dir[AkPem := Pem(p.pem(tpm.keys[handle]))]))
  }

  /** Persistent keys are added, never replaced or removed. */
  predicate KeysKept(before: Device, after: Device) {
    forall h | h in before.keys :: h in after.keys && after.keys[h] == before.keys[h]
  }

  lemma PerformKeepsKeys(p: Platform, tpm: Device, dir: Directory, cmd: Command, newKey: Key)
    ensures
      var done := Perform(p, tpm, dir, cmd, newKey);
      done.Some? ==>
        && KeysKept(tpm, done.value.0)
        && (!cmd.EvictControl? ==> done.value.0.keys == tpm.keys)
        && (cmd.EvictControl? ==> done.value.0.keys.Keys == tpm.keys.Keys + {cmd.handle} && cmd.handle !in tpm.keys)
  {
  }
}
