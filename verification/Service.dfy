/**
 * The TPM transactions of the service as a state machine. Requests arrive at any time and take
 * turns in any order; every step may fail or panic, and a failing command may or may not have
 * taken effect. One action of the machine is one arrival or one step of one request.
 */
module Service {
  import opened Wrappers
  import opened Text
  import opened Codec
  import opened Nonce
  import opened Tpm
  import Folder
  import Measurement
  import Tdx

  const SCRATCH_IDS := 0x1_0000_0000_0000_0000

  // ----- requests and replies -----

  datatype TpmEvidence = TpmEvidence(
    quote: string, quoteSize: nat, signature: string, message: string, pcrs: string,
    signatureSize: nat, messageSize: nat, nonce: string, nonceSize: nat, hashAlgorithm: string)

  datatype TdxEvidence = TdxEvidence(report: string, nonce: string, nonceSize: nat)

  /** The reply of `/quote_tpm` (no `tdx`) and `/attestation_all`. */
  datatype Attestation = Attestation(
    totalHash: string, pcrValue: string, tpm: TpmEvidence, tdx: Option<TdxEvidence>, akPubkey: string)

  datatype Reply =
    | Information(totalHash: string, pcrValue: string, akPubkey: Option<string>)
    | Attested(attestation: Attestation)
    | Verdict(trusted: bool, tpmTrusted: bool, tdxTrusted: bool)

  datatype Outcome = Replied(reply: Reply) | Refused(error: Error) | Panicked

  datatype Kind = InformationTpm | QuoteTpm | AttestationAll | VerifyAll(body: Attestation)

  /** What a request does next. */
  datatype Phase =
    | Arrived | WaitingForLock | NewScratch
    | Measure | StartTpm | ResetPcr | ExtendPcr | ReadPcr | PcrFile
    | GetCap | Flush1 | MakeEk | Flush2 | MakeAk | Flush3 | PersistAk | Flush4
    | FlushQuote | SignQuote | Blobs | TdxReport
    | AkCache | FlushPublic | ReadAk | PemFile | Assemble
    | TdxVerify | Decode | WriteSignature | WriteMessage | WritePem | CheckQuote
    | DropScratch(outcome: Outcome) | Unlock(outcome: Outcome) | Finished(outcome: Outcome)

  /**
   * What the folder was like while it was measured: one state of the file system with one order of
   * listing, or something that changed on the way, of which some bytes were hashed if nothing failed.
   */
  datatype Reading =
    | Undisturbed(world: Folder.World, listing: Folder.Listing)
    | Disturbed(hashed: Option<Bytes>)

  /** The bytes that are hashed, if the measurement succeeds. */
  function StreamOf(p: Platform, reading: Reading): Option<Bytes> {
    match reading
    case Disturbed(hashed) => hashed
    case Undisturbed(w, listing) =>
      match Measurement.FilesOf(w, listing, p.measureDir)
      case None => None
      case Some(files) => Some(Measurement.Stream(p.sha256, files))
  }

  /** `total_hash` of a successful measurement. */
  function DigestOf(p: Platform, reading: Reading): Option<string> {
    match StreamOf(p, reading)
    case None => None
    case Some(stream) => Some(ToHex(p.sha256(stream)))
  }

  /** On an undisturbed folder this is the digest of `measure_folder`, which fails when that fails. */
  lemma DigestIsMeasured(p: Platform, w: Folder.World, listing: Folder.Listing)
    ensures
      var m := Measurement.MeasurementOf(w, p.sha256, listing, p.measureDir);
      DigestOf(p, Undisturbed(w, listing)) == if m.Ok? then Some(m.value.totalHash) else None
  {
  }

  /** The local variables of a handler. */
  datatype Vars = Vars(
    scratch: nat, nonce: string, nonceSize: nat, reading: Reading, totalHash: string, pcrValue: string,
    tpmEvidence: TpmEvidence, tdxEvidence: Option<TdxEvidence>, pem: Option<string>,
    tdxTrusted: bool, signature: Bytes, message: Bytes)

  /**
   * Bookkeeping: commands run; whether the key was persisted and cached at lock time; whether
   * this request made the key, and whether it missed the cache. The last two make it cold.
   */
  datatype Tally = Tally(commands: nat, warmAtLock: bool, created: bool, missed: bool)

  datatype Request = Request(kind: Kind, nonceText: string, phase: Phase, vars: Vars, tally: Tally)

  const NO_EVIDENCE := TpmEvidence("", 0, "", "", "", 0, 0, "", 0, "")

  function NewRequest(kind: Kind, nonceText: string): Request {
    Request(kind, nonceText, Arrived, Vars(0, "", 0, Disturbed(None), "", "", NO_EVIDENCE, None, None, false, [], []),
            Tally(0, false, false, false))
  }

  // ----- the machine -----

  /** How one step goes; `reading` is what `measure_folder` meets. */
  datatype Choice = Choice(
    panics: bool, succeeds: bool, applied: bool, unreachable: bool,
    reading: Reading, newKey: Key, access: Tdx.Access)

  datatype State = State(
    tpm: Tpm.Device,
    holder: Option<nat>,
    poisoned: bool,
    cachedPem: Option<string>,
    scratchCounter: nat,
    scratch: map<nat, Directory>,
    requests: seq<Request>)

  datatype Action = Arrive(kind: Kind, nonceText: string) | Turn(id: nat, choice: Choice)

  datatype Fate = Success | Rejected | Unreachable | Crashed

  /** Runs one `tpm2-*` command. */
  function Issue(p: Platform, tpm: Tpm.Device, dir: Directory, cmd: Command, c: Choice)
    : (Tpm.Device, Directory, Fate)
  {
    var done := Perform(p, tpm, dir, cmd, c.newKey);
    var takesEffect := done.Some? && (c.applied || (c.succeeds && !c.panics));
    var (tpm', dir') := if takesEffect then done.value else (tpm, dir);
    (tpm', dir',
     if c.panics then Crashed
     else if c.succeeds && done.Some? then Success
     else if c.unreachable then Unreachable else Rejected)
  }

  predicate IsCommand(phase: Phase) {
    || phase.StartTpm? || phase.ResetPcr? || phase.ExtendPcr? || phase.ReadPcr? || phase.GetCap?
    || phase.MakeEk? || phase.MakeAk? || phase.PersistAk? || phase.SignQuote? || phase.ReadAk? || IsFlush(phase)
  }

  predicate IsFlush(phase: Phase) {
    phase.Flush1? || phase.Flush2? || phase.Flush3? || phase.Flush4? || phase.FlushQuote? || phase.FlushPublic?
  }

  /** The command a request in a command phase issues. */
  function CommandOf(p: Platform, req: Request): Command
    requires IsCommand(req.phase)
  {
    match req.phase
    case StartTpm => Startup
    case ResetPcr => PcrReset
    case ExtendPcr => PcrExtend(DecodedOr(req.vars.totalHash))
    case ReadPcr => PcrRead
    case GetCap => GetCapability
    case MakeEk => CreateEk
    case MakeAk => CreateAk
    case PersistAk => EvictControl(p.akHandle)
    case SignQuote => Quote(p.akHandle, DecodedOr(req.vars.nonce))
    case ReadAk => ReadPublic(p.akHandle)
    case _ => FlushContext
  }

  /** The bytes of a hexadecimal command-line argument; a malformed one reads as empty. */
  function DecodedOr(hex: string): Bytes {
    match FromHex(hex) case None => [] case Some(b) => b
  }

  function Fail(req: Request, e: Error): Request {
    req.(phase := DropScratch(Refused(e)))
  }

  /** `ensure_ak` failed: `/information_tpm` answers without a key, the others fail. */
  function AkFailed(req: Request, e: Error): Request {
    if req.kind.InformationTpm? then req.(phase := Assemble, vars := req.vars.(pem := None)) else Fail(req, e)
  }

  function AfterEnsureAk(req: Request): Request {
    req.(phase := if req.kind.InformationTpm? then AkCache else FlushQuote)
  }

  function ErrorOf(fate: Fate): Error {
    if fate.Unreachable? then NotImplemented else Internal
  }

  /** Where a request goes after its command. */
  function AfterCommand(req: Request, fate: Fate, akPresent: bool): Request
    requires IsCommand(req.phase)
  {
    if fate.Crashed? then req.(phase := DropScratch(Panicked))
    else if IsFlush(req.phase) then
      match req.phase
      case Flush1 => req.(phase := MakeEk)
      case Flush2 => req.(phase := MakeAk)
      case Flush3 => req.(phase := PersistAk)
      case Flush4 => AfterEnsureAk(req)
      case FlushQuote => req.(phase := SignQuote)
      case _ => req.(phase := ReadAk)
    else if req.phase.StartTpm? && !fate.Unreachable? then req.(phase := ResetPcr)
    else if req.phase.ReadAk? && !fate.Success? then req.(phase := Assemble, vars := req.vars.(pem := None))
    else if !fate.Success? then
      if req.phase.GetCap? || req.phase.MakeEk? || req.phase.MakeAk? || req.phase.PersistAk? then
        AkFailed(req, ErrorOf(fate))
      else Fail(req, ErrorOf(fate))
    else
      match req.phase
      case ResetPcr => req.(phase := ExtendPcr)
      case ExtendPcr => req.(phase := ReadPcr)
      case ReadPcr => req.(phase := PcrFile)
      case GetCap =>
        if akPresent then AfterEnsureAk(req) else req.(phase := Flush1, tally := req.tally.(created := true))
      case MakeEk => req.(phase := Flush2)
      case MakeAk => req.(phase := Flush3)
      case PersistAk => req.(phase := Flush4)
      case SignQuote => req.(phase := Blobs)
      case _ => req.(phase := PemFile)
  }

  /** The bytes of a scratch file, or None when it is missing or empty. */
  function ReadFile(dir: Directory, name: FileName): Option<Bytes> {
    if name in dir && dir[name].Raw? && dir[name].data != [] then Some(dir[name].data) else None
  }

  /** The part of `create_quote` behind the command. */
  function ReadQuote(req: Request, dir: Directory): Request {
    match (ReadFile(dir, QuoteSignature), ReadFile(dir, QuoteMessage), ReadFile(dir, QuotePcrs),
           NormalizeNonce(req.vars.nonce))
    case (Some(s), Some(m), Some(pcrs), Ok(normal)) =>
      var quote := JoinQuote(EncodeBlob(s), EncodeBlob(m), EncodeBlob(pcrs));
      var evidence := TpmEvidence(quote, |quote|, EncodeBlob(s), EncodeBlob(m), EncodeBlob(pcrs),
                                  |s|, |m|, Lower(req.vars.nonce), normal.1, HASH_ALGORITHM);
      req.(phase := if req.kind.AttestationAll? then TdxReport else AkCache,
           vars := req.vars.(tpmEvidence := evidence))
    case (Some(_), Some(_), Some(_), Err(e)) => Fail(req, e)
    case _ => Fail(req, Internal)
  }

  /** The TDX half of `attestation_all`. */
  function AttachReport(p: Platform, req: Request, access: Tdx.Access): Request {
    match FromHex(req.vars.nonce)
    case None => Fail(req, InvalidInput)
    case Some(nonce) =>
      match Tdx.Generated(p.tdx, access, nonce)
      case Err(e) => Fail(req, e)
      case Ok(report) =>
        var evidence := TdxEvidence(ToHex(report), req.vars.nonce, req.vars.nonceSize);
        req.(phase := AkCache, vars := req.vars.(tdxEvidence := Some(evidence)))
  }

  function ReplyOf(req: Request): Reply {
    if req.kind.InformationTpm? then Information(req.vars.totalHash, req.vars.pcrValue, req.vars.pem)
    else Attested(Attestation(req.vars.totalHash, req.vars.pcrValue, req.vars.tpmEvidence, req.vars.tdxEvidence,
                              if req.vars.pem.Some? then req.vars.pem.value else ""))
  }

  /** What one request sees of the state while it runs. */
  datatype Local = Local(tpm: Tpm.Device, cachedPem: Option<string>, dir: Directory, req: Request)

  predicate IsLocal(phase: Phase) {
    || IsCommand(phase) || phase.Measure? || phase.PcrFile? || phase.Blobs? || phase.TdxReport?
    || phase.AkCache? || phase.PemFile? || phase.Assemble?
    || phase.Decode? || phase.WriteSignature? || phase.WriteMessage? || phase.WritePem? || phase.CheckQuote?
  }

  function Counted(req: Request): Request {
    req.(tally := req.tally.(commands := req.tally.commands + 1))
  }

  function CommandStep(p: Platform, l: Local, c: Choice): Local
    requires IsCommand(l.req.phase)
  {
    var (tpm, dir, fate) := Issue(p, l.tpm, l.dir, CommandOf(p, l.req), c);
    l.(tpm := tpm, dir := dir,
       req := AfterCommand(Counted(l.req), fate, p.akHandle in tpm.keys))
  }

  /** `measure_folder` and its error. */
  function MeasureStep(p: Platform, l: Local, c: Choice): Local {
    match DigestOf(p, c.reading)
    case None => l.(req := Fail(l.req, Internal))
    case Some(digest) =>
      l.(req := l.req.(phase := StartTpm, vars := l.req.vars.(reading := c.reading, totalHash := digest)))
  }

  /** The second half of `read_pcr`. */
  function PcrFileStep(l: Local, c: Choice): Local {
    match (if c.succeeds then ReadFile(l.dir, PcrBin) else None)
    case None => l.(req := Fail(l.req, Internal))
    case Some(pcr) => l.(req := l.req.(phase := GetCap, vars := l.req.vars.(pcrValue := ToHex(pcr))))
  }

  /** The first half of `ak_pubkey`. */
  function CacheStep(l: Local): Local {
    if l.cachedPem.Some? then l.(req := l.req.(phase := Assemble, vars := l.req.vars.(pem := l.cachedPem)))
    else l.(req := l.req.(phase := FlushPublic, tally := l.req.tally.(missed := true)))
  }

  /** The second half of `ak_pubkey`. */
  function PemStep(l: Local, c: Choice): Local {
    if c.succeeds && AkPem in l.dir && l.dir[AkPem].Pem? then
      var pem := Some(l.dir[AkPem].text);
      l.(cachedPem := pem, req := l.req.(phase := Assemble, vars := l.req.vars.(pem := pem)))
    else l.(req := l.req.(phase := Assemble, vars := l.req.vars.(pem := None)))
  }

  function WriteStep(l: Local, c: Choice, name: FileName, content: Content, next: Phase): Local {
    if c.succeeds then l.(dir := l.dir[name := content], req := l.req.(phase := next))
    else l.(req := Fail(l.req, Internal))
  }

  /** The verdict of `verify_all` once both halves are in. */
  function VerdictOf(tpmTrusted: bool, tdxTrusted: bool): Reply {
    Verdict(tpmTrusted && tdxTrusted, tpmTrusted, tdxTrusted)
  }

  /** `tpm2_checkquote` on the files that are in the scratch directory now. */
  function CheckFiles(p: Platform, dir: Directory, evidence: TpmEvidence): bool {
    && VerifyPem in dir && dir[VerifyPem].Pem? && VerifyMessage in dir && dir[VerifyMessage].Raw?
    && VerifySignature in dir && dir[VerifySignature].Raw?
    && p.checkQuote(dir[VerifyPem].text, evidence.hashAlgorithm, dir[VerifyMessage].data,
                    dir[VerifySignature].data, evidence.nonce)
  }

  /** One step of `verify_quote`. */
  function VerifyStep(p: Platform, l: Local, c: Choice): Local
    requires l.req.kind.VerifyAll?
  {
    var req, body := l.req, l.req.kind.body;
    match req.phase
    case Decode =>
      (match (DecodeBlob(body.tpm.signature), DecodeBlob(body.tpm.message))
       case (Ok(s), Ok(m)) => l.(req := req.(phase := WriteSignature, vars := req.vars.(signature := s, message := m)))
       case (Ok(_), Err(e)) => l.(req := Fail(req, e))
       case (Err(e), _) => l.(req := Fail(req, e)))
    case WriteSignature => WriteStep(l, c, VerifySignature, Raw(req.vars.signature), WriteMessage)
    case WriteMessage => WriteStep(l, c, VerifyMessage, Raw(req.vars.message), WritePem)
    case WritePem => WriteStep(l, c, VerifyPem, Pem(body.akPubkey), CheckQuote)
    case _ =>
      if !c.succeeds then l.(req := Fail(req, if c.unreachable then NotImplemented else Internal))
      else
        l.(req := req.(phase := DropScratch(Replied(VerdictOf(CheckFiles(p, l.dir, body.tpm), req.vars.tdxTrusted)))))
  }

  /** One step inside the transaction, or one step of `verify_quote`. */
  function LocalStep(p: Platform, l: Local, c: Choice): Local
    requires IsLocal(l.req.phase)
  {
    if IsCommand(l.req.phase) then CommandStep(p, l, c)
    else if c.panics then l.(req := l.req.(phase := DropScratch(Panicked)))
    else
      match l.req.phase
      case Measure => MeasureStep(p, l, c)
      case PcrFile => PcrFileStep(l, c)
      case Blobs => l.(req := if c.succeeds then ReadQuote(l.req, l.dir) else Fail(l.req, Internal))
      case TdxReport => l.(req := AttachReport(p, l.req, c.access))
      case AkCache => CacheStep(l)
      case PemFile => PemStep(l, c)
      case Assemble => l.(req := l.req.(phase := DropScratch(Replied(ReplyOf(l.req)))))
      case _ => if l.req.kind.VerifyAll? then VerifyStep(p, l, c) else l
  }

  predicate HasScratch(req: Request) {
    IsLocal(req.phase) || req.phase.DropScratch?
  }

  predicate Locked(req: Request) {
    !req.kind.VerifyAll? && !(req.phase.Arrived? || req.phase.WaitingForLock? || req.phase.Finished?)
  }

  /** The end of a request that has no scratch directory. */
  function Leave(req: Request, outcome: Outcome): Request {
    req.(phase := if Locked(req) then Unlock(outcome) else Finished(outcome))
  }

  function DirectoryOf(s: State, req: Request): Directory {
    if req.vars.scratch in s.scratch then s.scratch[req.vars.scratch] else map[]
  }

  /** The handler's first step: validation of the challenge, or of the report to verify. */
  function Enter(p: Platform, req: Request, c: Choice): Request {
    if c.panics then Leave(req, Panicked)
    else if req.kind.InformationTpm? then req.(phase := WaitingForLock)
    else if req.kind.VerifyAll? then
      if req.kind.body.tdx.None? then Leave(req, Refused(InvalidInput)) else req.(phase := TdxVerify)
    else
      match NormalizeNonce(req.nonceText)
      case Err(e) => Leave(req, Refused(e))
      case Ok(normal) => req.(phase := WaitingForLock, vars := req.vars.(nonce := normal.0, nonceSize := normal.1))
  }

  /** `verify_tdx_report`, before any scratch directory exists. */
  function VerifyReport(p: Platform, req: Request, c: Choice): Request
    requires req.kind.VerifyAll?
  {
    var hex := if req.kind.body.tdx.Some? then FromHex(req.kind.body.tdx.value.report) else None;
    if c.panics then Leave(req, Panicked)
    else if hex.None? then Leave(req, Refused(InvalidInput))
    else
      match Tdx.Verified(p.tdx, c.access, hex.value)
      case Err(e) => Leave(req, Refused(e))
      case Ok(trusted) => req.(phase := NewScratch, vars := req.vars.(tdxTrusted := trusted))
  }

  function SetRequest(s: State, i: nat, req: Request): State
    requires i < |s.requests|
  {
    s.(requests := s.requests[i := req])
  }

  function LocalTurn(p: Platform, s: State, i: nat, c: Choice): State
    requires i < |s.requests| && IsLocal(s.requests[i].phase)
  {
    var req := s.requests[i];
    var l := LocalStep(p, Local(s.tpm, s.cachedPem, DirectoryOf(s, req), req), c);
    SetRequest(s, i, l.req)
    .(tpm := l.tpm, cachedPem := l.cachedPem, scratch := s.scratch[req.vars.scratch := l.dir])
  }

  /** A poisoned lock is recovered from, so only a holder keeps the request waiting. */
  function LockTurn(p: Platform, s: State, i: nat): State
    requires i < |s.requests|
  {
    if s.holder.Some? then s
    else
      var req, warm := s.requests[i], p.akHandle in s.tpm.keys && s.cachedPem.Some?;
      SetRequest(s, i, req.(phase := NewScratch, tally := req.tally.(warmAtLock := warm))).(holder := Some(i))
  }

  /** `Scratch::new`: the counter moves even when the directory cannot be made. */
  function ScratchTurn(s: State, i: nat, c: Choice): State
    requires i < |s.requests|
  {
    var req, id := s.requests[i], s.scratchCounter % SCRATCH_IDS;
    var s1 := s.(scratchCounter := s.scratchCounter + 1);
    if c.panics then SetRequest(s1, i, Leave(req, Panicked))
    else if !c.succeeds then SetRequest(s1, i, Leave(req, Refused(Internal)))
    else
      var dir: Directory := if id in s.scratch then s.scratch[id] else map[];
      var next := if req.kind.VerifyAll? then Decode else Measure;
      SetRequest(s1, i, req.(phase := next, vars := req.vars.(scratch := id))).(scratch := s.scratch[id := dir])
  }

  function DropTurn(s: State, i: nat, c: Choice): State
    requires i < |s.requests| && s.requests[i].phase.DropScratch?
  {
    var req := s.requests[i];
    SetRequest(s, i, Leave(req, req.phase.outcome))
    .(scratch := if c.succeeds then s.scratch - {req.vars.scratch} else s.scratch)
  }

  function UnlockTurn(s: State, i: nat): State
    requires i < |s.requests| && s.requests[i].phase.Unlock?
  {
    var outcome := s.requests[i].phase.outcome;
    SetRequest(s, i, s.requests[i].(phase := Finished(outcome)))
    .(holder := None, poisoned := s.poisoned || outcome.Panicked?)
  }

  function TakeTurn(p: Platform, s: State, i: nat, c: Choice): State
    requires i < |s.requests|
  {
    var req := s.requests[i];
    if IsLocal(req.phase) then LocalTurn(p, s, i, c)
    else
      match req.phase
      case Arrived => SetRequest(s, i, Enter(p, req, c))
      case TdxVerify => if req.kind.VerifyAll? then SetRequest(s, i, VerifyReport(p, req, c)) else s
      case WaitingForLock => LockTurn(p, s, i)
      case NewScratch => ScratchTurn(s, i, c)
      case DropScratch(_) => DropTurn(s, i, c)
      case Unlock(_) => UnlockTurn(s, i)
      case _ => s
  }

  function Next(p: Platform, s: State, a: Action): State {
    match a
    case Arrive(kind, nonceText) => s.(requests := s.requests + [NewRequest(kind, nonceText)])
    case Turn(i, c) => if i < |s.requests| then TakeTurn(p, s, i, c) else s
  }

  function Run(p: Platform, s: State, actions: seq<Action>): State
    decreases |actions|
  {
    if actions == [] then s else Run(p, Next(p, s, actions[0]), actions[1..])
  }

  /** A fresh process: the TPM and the temporary directory may hold anything. */
  predicate Initial(s: State) {
    && |s.tpm.pcr| == DIGEST_LEN
    && s.holder == None && s.cachedPem == None && s.scratchCounter == 0 && s.requests == []
  }
}
