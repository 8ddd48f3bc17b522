/**
 * What holds in every reachable state of the service, for any number of requests, any order of
 * turns, and any failure or panic.
 */
module Safety {
  import opened Wrappers
  import opened Text
  import opened Codec
  import opened Nonce
  import opened Tpm
  import opened Service
  import Tdx

  // ----- what a reply promises -----

  /** The PCR value that stands for a folder digest: reset, then extended once. */
  function Extended(p: Platform, totalHash: string): Bytes {
    p.sha256(ZERO_DIGEST + DecodedOr(totalHash))
  }

  /** Both texts a reply shows of the measurement are about the folder as this request read it. */
  predicate Measured(p: Platform, reading: Reading, totalHash: string, pcrValue: string) {
    DigestOf(p, reading) == Some(totalHash) && pcrValue == ToHex(Extended(p, totalHash))
  }

  /** The quote is the key's signature over that PCR value and the challenge, in wire form. */
  predicate Quoted(p: Platform, key: Key, totalHash: string, nonce: string, e: TpmEvidence) {
    var pcr := Extended(p, totalHash);
    var message := p.attest(p.sha256(pcr), DecodedOr(nonce));
    var signature := p.sign(key, message);
    && e.signature == EncodeBlob(signature) && e.signatureSize == |signature|
    && e.message == EncodeBlob(message) && e.messageSize == |message|
    && e.pcrs == EncodeBlob(pcr)
    && e.quote == JoinQuote(e.signature, e.message, e.pcrs) && e.quoteSize == |e.quote|
    && e.nonce == nonce && e.nonceSize == |DecodedOr(nonce)| && e.hashAlgorithm == HASH_ALGORITHM
  }

  /** The TDX half is the module's report for the zero-padded challenge. */
  predicate Reported(p: Platform, nonce: string, e: TdxEvidence) {
    var data := Tdx.ReportData(DecodedOr(nonce));
    && data.Ok? && e.report == ToHex(p.tdx.report(data.value))
    && e.nonce == nonce && e.nonceSize == |DecodedOr(nonce)|
  }

  /** A public key in a reply is that of the persisted Attestation Key. */
  predicate AkOf(p: Platform, tpm: Tpm.Device, pem: string) {
    p.akHandle in tpm.keys && pem == p.pem(tpm.keys[p.akHandle])
  }

  /** The exact verdict on a posted attestation, given that the verifiers can be reached. */
  function VerdictFor(p: Platform, body: Attestation): Option<Reply> {
    if body.tdx.None? then None
    else
      match (FromHex(body.tdx.value.report), DecodeBlob(body.tpm.signature), DecodeBlob(body.tpm.message))
      case (Some(report), Ok(s), Ok(m)) =>
        if |report| != Tdx.TDREPORT_LEN then None
        else
          var quote := p.checkQuote(body.akPubkey, body.tpm.hashAlgorithm, m, s, body.tpm.nonce);
          var sealed := p.tdx.verify(report) == Tdx.TDX_SUCCESS;
          Some(Verdict(quote && sealed, quote, sealed))
      case _ => None
  }

  /** What a reply promises its reader. */
  predicate Honest(p: Platform, tpm: Tpm.Device, req: Request, reply: Reply) {
    match req.kind
    case InformationTpm =>
      && reply.Information? && Measured(p, req.vars.reading, reply.totalHash, reply.pcrValue)
      && (reply.akPubkey.Some? ==> AkOf(p, tpm, reply.akPubkey.value))
      && req.tally.commands <= 14
    case VerifyAll(body) => Some(reply) == VerdictFor(p, body)
    case _ =>
      && reply.Attested?
      && var a := reply.attestation;
      && NormalizeNonce(req.nonceText) == Ok((req.vars.nonce, |DecodedOr(req.vars.nonce)|))
      && Measured(p, req.vars.reading, a.totalHash, a.pcrValue)
      && p.akHandle in tpm.keys && Quoted(p, tpm.keys[p.akHandle], a.totalHash, req.vars.nonce, a.tpm)
      && (a.akPubkey != "" ==> AkOf(p, tpm, a.akPubkey))
      && (a.tdx.Some? <==> req.kind.AttestationAll?)
      && (a.tdx.Some? ==> Reported(p, req.vars.nonce, a.tdx.value))
      && req.tally.commands == CommandsOf(req)
  }

  /** Seven commands, seven more to make the key, two more to read its public part. */
  function CommandsOf(req: Request): nat {
    7 + (if req.tally.created then 7 else 0) + if req.tally.missed then 2 else 0
  }

  // ----- the invariant of one request -----

  predicate CacheOk(p: Platform, tpm: Tpm.Device, cachedPem: Option<string>) {
    |tpm.pcr| == DIGEST_LEN && (cachedPem.Some? ==> AkOf(p, tpm, cachedPem.value))
  }

  /** A number per phase, in the order a transaction passes them. */
  function Rank(phase: Phase): nat {
    match phase
    case NewScratch => 1 case Measure => 2 case StartTpm => 3 case ResetPcr => 4 case ExtendPcr => 5
    case ReadPcr => 6 case PcrFile => 7 case GetCap => 8 case Flush1 => 9 case MakeEk => 10
    case Flush2 => 11 case MakeAk => 12 case Flush3 => 13 case PersistAk => 14 case Flush4 => 15
    case FlushQuote => 16 case SignQuote => 17 case Blobs => 18 case TdxReport => 19
    case AkCache => 20 case FlushPublic => 21 case ReadAk => 22 case PemFile => 23 case Assemble => 24
    case _ => 0
  }

  /** Commands issued before a phase is entered. */
  function CommandsBefore(req: Request): int {
    var r := Rank(req.phase);
    var made := if req.tally.created then 7 else 0;
    var quoted := if req.kind.InformationTpm? then 5 else 7;
    if r <= 3 then 0
    else if r <= 7 then r - 3
    else if r == 8 then 4
    else if r <= 15 then r - 4
    else if r <= 17 then r - 11 + made
    else if r <= 19 then 7 + made
    else if r <= 21 then quoted + made
    else if r <= 23 then quoted + made + r - 21
    else quoted + made + if req.tally.missed then 2 else 0
  }

  /** The measurement: what is known of digest and PCR in each phase. */
  predicate PcrOk(p: Platform, tpm: Tpm.Device, dir: Directory, req: Request) {
    var r := Rank(req.phase);
    && (r >= 3 ==> DigestOf(p, req.vars.reading) == Some(req.vars.totalHash))
    && (r == 5 ==> tpm.pcr == ZERO_DIGEST)
    && (r >= 6 ==> tpm.pcr == Extended(p, req.vars.totalHash))
    && (r == 7 ==> PcrBin in dir && dir[PcrBin] == Raw(tpm.pcr))
    && (r >= 8 ==> req.vars.pcrValue == ToHex(tpm.pcr))
  }

  /** The Attestation Key: absent while it is being made, present afterwards. */
  predicate AkOk(p: Platform, tpm: Tpm.Device, cachedPem: Option<string>, dir: Directory, req: Request) {
    var r := Rank(req.phase);
    && (9 <= r <= 14 ==> p.akHandle !in tpm.keys)
    && (15 <= r <= 23 ==> p.akHandle in tpm.keys)
    && (r == 24 && !req.kind.InformationTpm? ==> p.akHandle in tpm.keys)
    && (r == 23 ==> AkPem in dir && dir[AkPem].Pem? ==> AkOf(p, tpm, dir[AkPem].text))
    && (r == 24 && req.vars.pem.Some? ==> AkOf(p, tpm, req.vars.pem.value))
    && (req.tally.warmAtLock ==> p.akHandle in tpm.keys && cachedPem.Some?)
  }

  /** The evidence: signature files, the quote made of them, the report. */
  predicate EvidenceOk(p: Platform, tpm: Tpm.Device, dir: Directory, req: Request) {
    var r := Rank(req.phase);
    && (16 <= r <= 19 ==> !req.kind.InformationTpm?)
    && (r == 19 ==> req.kind.AttestationAll?)
    && (!req.kind.InformationTpm? ==>
          && Canonical(req.vars.nonce)
          && NormalizeNonce(req.nonceText) == Ok((req.vars.nonce, |DecodedOr(req.vars.nonce)|))
          && req.vars.nonceSize == |DecodedOr(req.vars.nonce)|
          && (r == 18 ==> SignedFiles(p, tpm, dir, req))
          && (r >= 19 ==>
                p.akHandle in tpm.keys
                && Quoted(p, tpm.keys[p.akHandle], req.vars.totalHash, req.vars.nonce, req.vars.tpmEvidence))
          && (r >= 20 && req.kind.AttestationAll? ==>
                req.vars.tdxEvidence.Some? && Reported(p, req.vars.nonce, req.vars.tdxEvidence.value))
          && (r < 20 || !req.kind.AttestationAll? ==> req.vars.tdxEvidence.None?))
  }

  predicate SignedFiles(p: Platform, tpm: Tpm.Device, dir: Directory, req: Request) {
    && p.akHandle in tpm.keys
    && var message := p.attest(p.sha256(tpm.pcr), DecodedOr(req.vars.nonce));
    && ReadFile(dir, QuoteSignature) == Some(p.sign(tpm.keys[p.akHandle], message))
    && ReadFile(dir, QuoteMessage) == Some(message)
    && ReadFile(dir, QuotePcrs) == Some(tpm.pcr)
  }

  predicate CountOk(req: Request) {
    var r := Rank(req.phase);
    && (1 <= r <= 23 || (r == 24 && !req.kind.InformationTpm?) ==> req.tally.commands == CommandsBefore(req))
    && (r == 24 ==> req.tally.commands <= 16 && (req.kind.InformationTpm? ==> req.tally.commands <= 14))
    && (r <= 8 ==> !req.tally.created) && (9 <= r <= 15 ==> req.tally.created)
    && (r <= 20 ==> !req.tally.missed) && (21 <= r <= 23 ==> req.tally.missed)
    && (req.tally.warmAtLock ==> !req.tally.created && !req.tally.missed)
  }

  /** The invariant of a request that is working towards a reply under the lock. */
  predicate TransactionOk(p: Platform, l: Local) {
    && PcrOk(p, l.tpm, l.dir, l.req) && AkOk(p, l.tpm, l.cachedPem, l.dir, l.req)
    && EvidenceOk(p, l.tpm, l.dir, l.req) && CountOk(l.req)
  }

  /** The outcome a request carries out of its transaction. */
  predicate OutcomeOk(p: Platform, tpm: Tpm.Device, req: Request, outcome: Outcome) {
    && (outcome.Replied? ==> Honest(p, tpm, req, outcome.reply))
    && (req.tally.warmAtLock ==> !req.tally.created && !req.tally.missed)
  }

  /** The invariant of a request that verifies an attestation, without the lock. */
  predicate VerificationOk(p: Platform, dir: Directory, req: Request)
    requires req.kind.VerifyAll?
  {
    var body := req.kind.body;
    var ph := req.phase;
    && (ph.NewScratch? || ph.Decode? || ph.WriteSignature? || ph.WriteMessage? || ph.WritePem? || ph.CheckQuote? ==>
          && body.tdx.Some? && FromHex(body.tdx.value.report).Some?
          && |FromHex(body.tdx.value.report).value| == Tdx.TDREPORT_LEN
          && req.vars.tdxTrusted == (p.tdx.verify(FromHex(body.tdx.value.report).value) == Tdx.TDX_SUCCESS))
    && (ph.WriteSignature? || ph.WriteMessage? || ph.WritePem? || ph.CheckQuote? ==>
          && DecodeBlob(body.tpm.signature) == Ok(req.vars.signature)
          && DecodeBlob(body.tpm.message) == Ok(req.vars.message))
    && (ph.WriteMessage? || ph.WritePem? || ph.CheckQuote? ==>
          VerifySignature in dir && dir[VerifySignature] == Raw(req.vars.signature))
    && (ph.WritePem? || ph.CheckQuote? ==> VerifyMessage in dir && dir[VerifyMessage] == Raw(req.vars.message))
    && (ph.CheckQuote? ==> VerifyPem in dir && dir[VerifyPem] == Pem(body.akPubkey))
  }

  /** What is known of a request, given its own directory. */
  predicate RequestOk(p: Platform, l: Local) {
    var req := l.req;
    if req.phase.DropScratch? || req.phase.Unlock? || req.phase.Finished? then
      OutcomeOk(p, l.tpm, req, req.phase.outcome) && (req.phase.Unlock? ==> !req.kind.VerifyAll?)
    else if req.kind.VerifyAll? then
      Rank(req.phase) <= 1 && !req.phase.WaitingForLock? && !req.tally.warmAtLock && VerificationOk(p, l.dir, req)
    else if req.phase.Arrived? then
      && !req.tally.created && !req.tally.missed && !req.tally.warmAtLock && req.tally.commands == 0
      && req.vars.tdxEvidence.None?
    else if req.phase.WaitingForLock? then
      && !req.tally.created && !req.tally.missed && !req.tally.warmAtLock && req.tally.commands == 0
      && EvidenceOk(p, l.tpm, map[], req)
    else Rank(req.phase) > 0 && TransactionOk(p, l)
  }

  // ----- one step of one request -----

  lemma HexDecodes(b: Bytes)
    ensures DecodedOr(ToHex(b)) == b
  {
    FromHexOfToHex(b);
  }

  /** A folder digest is one the TPM takes. */
  lemma DigestDecodes(p: Platform, req: Request)
    requires Ideal(p)
    ensures DigestOf(p, req.vars.reading) == Some(req.vars.totalHash) ==>
              |DecodedOr(req.vars.totalHash)| == DIGEST_LEN
  {
    match StreamOf(p, req.vars.reading)
    case None =>
    case Some(stream) => HexDecodes(p.sha256(stream));
  }

  /** A command keeps the keys, and only leaves the trace its kind allows. */
  lemma IssueFrame(p: Platform, tpm: Tpm.Device, dir: Directory, cmd: Command, c: Choice)
    requires Ideal(p) && |tpm.pcr| == DIGEST_LEN
    ensures
      var (tpm', dir', fate) := Issue(p, tpm, dir, cmd, c);
      && KeysKept(tpm, tpm') && |tpm'.pcr| == DIGEST_LEN
      && (!cmd.EvictControl? ==> tpm'.keys == tpm.keys)
      && (cmd.EvictControl? ==> tpm'.pcr == tpm.pcr)
      && (!cmd.Startup? && !cmd.PcrReset? && !cmd.PcrExtend? ==> tpm'.pcr == tpm.pcr)
  {
    PerformKeepsKeys(p, tpm, dir, cmd, c.newKey);
  }

  // A command step either leaves the transaction or keeps each part of its invariant. The
  // commands up to the capability query and those after it are taken apart.

  lemma CommandMoves(p: Platform, l: Local, c: Choice)
    requires IsCommand(l.req.phase) && !l.req.kind.VerifyAll?
    ensures
      var l' := CommandStep(p, l, c);
      && l'.cachedPem == l.cachedPem && l'.req.kind == l.req.kind && !l'.req.phase.Arrived?
      && l'.req.tally.warmAtLock == l.req.tally.warmAtLock && l'.req.vars.scratch == l.req.vars.scratch
      && if l'.req.phase.DropScratch?
         then !l'.req.phase.outcome.Replied? && l'.req.tally == Counted(l.req).tally
         else Rank(l'.req.phase) > 1
  {
    var (tpm, dir, fate) := Issue(p, l.tpm, l.dir, CommandOf(p, l.req), c);
    AfterCommandMoves(Counted(l.req), fate, p.akHandle in tpm.keys);
    hide Issue, AfterCommand, IsCommand, Rank, CommandOf;
  }

  lemma AfterCommandMoves(req: Request, fate: Fate, akPresent: bool)
    requires IsCommand(req.phase)
    ensures
      var req' := AfterCommand(req, fate, akPresent);
      && req'.kind == req.kind && !req'.phase.Arrived?
      && req'.tally.warmAtLock == req.tally.warmAtLock && req'.vars.scratch == req.vars.scratch
      && if req'.phase.DropScratch?
         then !req'.phase.outcome.Replied? && req'.tally == req.tally
         else Rank(req'.phase) > 1
  {
  }

  lemma MeasuringKeepsPcr(p: Platform, l: Local, c: Choice)
    requires Ideal(p) && CacheOk(p, l.tpm, l.cachedPem)
    requires IsCommand(l.req.phase) && Rank(l.req.phase) <= 8 && PcrOk(p, l.tpm, l.dir, l.req)
    ensures var l' := CommandStep(p, l, c); l'.req.phase.DropScratch? || PcrOk(p, l'.tpm, l'.dir, l'.req)
  {
    hide DecodedOr, DigestOf;
    IssueFrame(p, l.tpm, l.dir, CommandOf(p, l.req), c);
    DigestDecodes(p, l.req);
  }

  lemma SigningKeepsPcr(p: Platform, l: Local, c: Choice)
    requires Ideal(p) && CacheOk(p, l.tpm, l.cachedPem)
    requires IsCommand(l.req.phase) && Rank(l.req.phase) > 8 && PcrOk(p, l.tpm, l.dir, l.req)
    ensures var l' := CommandStep(p, l, c); l'.req.phase.DropScratch? || PcrOk(p, l'.tpm, l'.dir, l'.req)
  {
    hide Issue, IsCommand, AfterCommand, Rank, DecodedOr, Ideal, CacheOk;
    var (tpm, dir, fate) := Issue(p, l.tpm, l.dir, CommandOf(p, l.req), c);
    SigningKeepsThePcr(p, l, c);
    AfterSigningMoves(Counted(l.req), fate, p.akHandle in tpm.keys);
  }

  lemma SigningKeepsThePcr(p: Platform, l: Local, c: Choice)
    requires Ideal(p) && CacheOk(p, l.tpm, l.cachedPem) && IsCommand(l.req.phase) && Rank(l.req.phase) > 8
    ensures Issue(p, l.tpm, l.dir, CommandOf(p, l.req), c).0.pcr == l.tpm.pcr
  {
    hide DecodedOr, Issue;
    IssueFrame(p, l.tpm, l.dir, CommandOf(p, l.req), c);
  }

  lemma AfterSigningMoves(req: Request, fate: Fate, akPresent: bool)
    requires IsCommand(req.phase) && Rank(req.phase) > 8
    ensures
      var req' := AfterCommand(req, fate, akPresent);
      (req'.phase.DropScratch? || Rank(req'.phase) > 8) && req'.vars == req.vars.(pem := req'.vars.pem)
  {
  }

  lemma CommandKeepsAk(p: Platform, l: Local, c: Choice)
    requires Ideal(p) && CacheOk(p, l.tpm, l.cachedPem)
    requires IsCommand(l.req.phase) && AkOk(p, l.tpm, l.cachedPem, l.dir, l.req)
    ensures var l' := CommandStep(p, l, c); l'.req.phase.DropScratch? || AkOk(p, l'.tpm, l'.cachedPem, l'.dir, l'.req)
  {
    hide AkOk, Rank, AfterCommand;
    if l.req.phase.PersistAk? {
      PersistKeepsAk(p, l, c);
    } else if l.req.phase.ReadAk? {
      ReadKeepsAk(p, l, c);
    } else {
      IssueFrame(p, l.tpm, l.dir, CommandOf(p, l.req), c);
      hide Issue;
      var (tpm, dir, fate) := Issue(p, l.tpm, l.dir, CommandOf(p, l.req), c);
      OtherCommandsKeepAk(p, l, tpm, dir, fate);
    }
  }

  lemma PersistKeepsAk(p: Platform, l: Local, c: Choice)
    requires l.req.phase.PersistAk? && AkOk(p, l.tpm, l.cachedPem, l.dir, l.req)
    ensures var l' := CommandStep(p, l, c); l'.req.phase.DropScratch? || AkOk(p, l'.tpm, l'.cachedPem, l'.dir, l'.req)
  {
  }

  lemma ReadKeepsAk(p: Platform, l: Local, c: Choice)
    requires l.req.phase.ReadAk? && AkOk(p, l.tpm, l.cachedPem, l.dir, l.req)
    ensures var l' := CommandStep(p, l, c); l'.req.phase.DropScratch? || AkOk(p, l'.tpm, l'.cachedPem, l'.dir, l'.req)
  {
  }

  lemma OtherCommandsKeepAk(p: Platform, l: Local, tpm: Tpm.Device, dir: Directory, fate: Fate)
    requires IsCommand(l.req.phase) && !l.req.phase.PersistAk? && !l.req.phase.ReadAk?
    requires tpm.keys == l.tpm.keys && AkOk(p, l.tpm, l.cachedPem, l.dir, l.req)
    ensures
      var req := AfterCommand(Counted(l.req), fate, p.akHandle in tpm.keys);
      req.phase.DropScratch? || AkOk(p, tpm, l.cachedPem, dir, req)
  {
    hide AkOf;
  }

  lemma MeasuringKeepsEvidence(p: Platform, l: Local, c: Choice)
    requires Ideal(p) && CacheOk(p, l.tpm, l.cachedPem)
    requires IsCommand(l.req.phase) && Rank(l.req.phase) <= 8 && EvidenceOk(p, l.tpm, l.dir, l.req)
    ensures var l' := CommandStep(p, l, c); l'.req.phase.DropScratch? || EvidenceOk(p, l'.tpm, l'.dir, l'.req)
  {
    hide NormalizeNonce, Canonical, Quoted, Reported, DecodedOr;
    IssueFrame(p, l.tpm, l.dir, CommandOf(p, l.req), c);
  }

  lemma SigningKeepsEvidence(p: Platform, l: Local, c: Choice)
    requires Ideal(p) && CacheOk(p, l.tpm, l.cachedPem)
    requires IsCommand(l.req.phase) && Rank(l.req.phase) > 8 && EvidenceOk(p, l.tpm, l.dir, l.req)
    ensures var l' := CommandStep(p, l, c); l'.req.phase.DropScratch? || EvidenceOk(p, l'.tpm, l'.dir, l'.req)
  {
    hide NormalizeNonce, Canonical, Quoted, Reported, DecodedOr, Ideal, CacheOk;
    if l.req.phase.SignQuote? {
      QuoteKeepsEvidence(p, l, c);
    } else {
      SignaturesKept(p, l, c);
      hide Perform, Issue, SignedFiles;
    }
  }

  lemma QuoteKeepsEvidence(p: Platform, l: Local, c: Choice)
    requires Ideal(p) && CacheOk(p, l.tpm, l.cachedPem)
    requires l.req.phase.SignQuote? && EvidenceOk(p, l.tpm, l.dir, l.req)
    ensures var l' := CommandStep(p, l, c); l'.req.phase.DropScratch? || EvidenceOk(p, l'.tpm, l'.dir, l'.req)
  {
    hide NormalizeNonce, Canonical, Quoted, Reported, DecodedOr;
  }

  /** Commands other than the quote leave the persisted key as it is. */
  lemma SignaturesKept(p: Platform, l: Local, c: Choice)
    requires Ideal(p) && CacheOk(p, l.tpm, l.cachedPem) && IsCommand(l.req.phase)
    ensures KeysKept(l.tpm, CommandStep(p, l, c).tpm)
  {
    hide Perform, DecodedOr;
    IssueFrame(p, l.tpm, l.dir, CommandOf(p, l.req), c);
  }

  /** The count fits the next phase; a key that was there at lock time is found. */
  lemma AfterMeasuringCounts(req: Request, fate: Fate, akPresent: bool)
    requires IsCommand(req.phase) && CountOk(req) && Rank(req.phase) <= 8
    requires req.phase.GetCap? && req.tally.warmAtLock ==> akPresent
    ensures
      var req' := AfterCommand(Counted(req), fate, akPresent);
      req'.phase.DropScratch? || CountOk(req')
  {
  }

  lemma AfterSigningCounts(req: Request, fate: Fate, akPresent: bool)
    requires IsCommand(req.phase) && CountOk(req) && Rank(req.phase) > 8
    ensures
      var req' := AfterCommand(Counted(req), fate, akPresent);
      req'.phase.DropScratch? || CountOk(req')
  {
  }

  lemma CommandKeepsCount(p: Platform, l: Local, c: Choice)
    requires Ideal(p) && CacheOk(p, l.tpm, l.cachedPem)
    requires IsCommand(l.req.phase) && CountOk(l.req)
    requires l.req.tally.warmAtLock ==> p.akHandle in l.tpm.keys
    ensures var l' := CommandStep(p, l, c); l'.req.phase.DropScratch? || CountOk(l'.req)
  {
    hide IsCommand, CommandOf, CountOk, AfterCommand;
    IssueFrame(p, l.tpm, l.dir, CommandOf(p, l.req), c);
    hide Issue;
    var (tpm, dir, fate) := Issue(p, l.tpm, l.dir, CommandOf(p, l.req), c);
    hide Rank;
    if Rank(l.req.phase) <= 8 {
      AfterMeasuringCounts(l.req, fate, p.akHandle in tpm.keys);
    } else {
      AfterSigningCounts(l.req, fate, p.akHandle in tpm.keys);
    }
  }

  /** All commands of a transaction together. */
  lemma CommandKeeps(p: Platform, l: Local, c: Choice)
    requires Ideal(p) && CacheOk(p, l.tpm, l.cachedPem)
    requires IsCommand(l.req.phase) && !l.req.kind.VerifyAll? && TransactionOk(p, l)
    ensures StepOk(p, l, CommandStep(p, l, c))
  {
    hide Perform, PcrOk, AkOk, EvidenceOk, CountOk, CommandOf, Honest, VerificationOk;
    CommandMoves(p, l, c);
    IssueFrame(p, l.tpm, l.dir, CommandOf(p, l.req), c);
    WarmMeansKey(p, l);
    CommandKeepsCount(p, l, c);
    CommandKeepsAk(p, l, c);
    if Rank(l.req.phase) <= 8 {
      MeasuringKeepsPcr(p, l, c);
      MeasuringKeepsEvidence(p, l, c);
    } else {
      SigningKeepsPcr(p, l, c);
      SigningKeepsEvidence(p, l, c);
    }
  }

  lemma WarmMeansKey(p: Platform, l: Local)
    requires AkOk(p, l.tpm, l.cachedPem, l.dir, l.req) && CountOk(l.req)
    ensures l.req.tally.warmAtLock ==>
      p.akHandle in l.tpm.keys && l.cachedPem.Some? && !l.req.tally.created && !l.req.tally.missed
  {
  }

  predicate StepOk(p: Platform, l: Local, l': Local) {
    && RequestOk(p, l') && CacheOk(p, l'.tpm, l'.cachedPem) && KeysKept(l.tpm, l'.tpm)
    && (l.req.kind.VerifyAll? ==> l'.tpm == l.tpm && l'.cachedPem == l.cachedPem)
    && l'.req.kind == l.req.kind && l'.req.vars.scratch == l.req.vars.scratch
    && (IsLocal(l'.req.phase) || l'.req.phase.DropScratch?)
  }

  lemma MeasureKeeps(p: Platform, l: Local, c: Choice)
    requires Ideal(p) && CacheOk(p, l.tpm, l.cachedPem)
    requires l.req.phase.Measure? && !l.req.kind.VerifyAll? && TransactionOk(p, l)
    ensures StepOk(p, l, MeasureStep(p, l, c))
  {
    hide Canonical, NormalizeNonce, Quoted, Reported, Honest, VerificationOk;
  }

  lemma PcrFileKeeps(p: Platform, l: Local, c: Choice)
    requires Ideal(p) && CacheOk(p, l.tpm, l.cachedPem)
    requires l.req.phase.PcrFile? && !l.req.kind.VerifyAll? && TransactionOk(p, l)
    ensures StepOk(p, l, PcrFileStep(l, c))
  {
    hide Canonical, NormalizeNonce, Quoted, Reported, Honest, VerificationOk;
  }

  /** Looking into the cache does not touch measurement and evidence. */
  lemma CacheKeepsEvidence(p: Platform, l: Local)
    requires l.req.phase.AkCache? && PcrOk(p, l.tpm, l.dir, l.req) && EvidenceOk(p, l.tpm, l.dir, l.req)
    ensures
      var req := CacheStep(l).req;
      PcrOk(p, l.tpm, l.dir, req) && EvidenceOk(p, l.tpm, l.dir, req)
  {
    hide Canonical, NormalizeNonce, Quoted, Reported, SignedFiles, DecodedOr, ToHex, Extended;
  }

  lemma CacheKeepsAk(p: Platform, l: Local)
    requires CacheOk(p, l.tpm, l.cachedPem) && l.req.phase.AkCache?
    requires AkOk(p, l.tpm, l.cachedPem, l.dir, l.req) && CountOk(l.req)
    ensures
      var req := CacheStep(l).req;
      AkOk(p, l.tpm, l.cachedPem, l.dir, req) && CountOk(req)
  {
  }

  lemma CacheKeeps(p: Platform, l: Local)
    requires CacheOk(p, l.tpm, l.cachedPem)
    requires l.req.phase.AkCache? && !l.req.kind.VerifyAll? && TransactionOk(p, l)
    ensures StepOk(p, l, CacheStep(l))
  {
    hide PcrOk, AkOk, EvidenceOk, CountOk, CacheOk, StepOk;
    CacheKeepsEvidence(p, l);
    CacheKeepsAk(p, l);
    TransactionStepOk(p, l, CacheStep(l).req);
  }

  lemma PemKeepsEvidence(p: Platform, l: Local, c: Choice)
    requires l.req.phase.PemFile? && PcrOk(p, l.tpm, l.dir, l.req) && EvidenceOk(p, l.tpm, l.dir, l.req)
    ensures
      var req := PemStep(l, c).req;
      PcrOk(p, l.tpm, l.dir, req) && EvidenceOk(p, l.tpm, l.dir, req)
  {
    hide Canonical, NormalizeNonce, Quoted, Reported, SignedFiles, DecodedOr, ToHex, Extended;
  }

  lemma PemKeepsAk(p: Platform, l: Local, c: Choice)
    requires CacheOk(p, l.tpm, l.cachedPem) && l.req.phase.PemFile?
    requires AkOk(p, l.tpm, l.cachedPem, l.dir, l.req) && CountOk(l.req)
    ensures
      var l' := PemStep(l, c);
      CacheOk(p, l.tpm, l'.cachedPem) && AkOk(p, l.tpm, l'.cachedPem, l.dir, l'.req) && CountOk(l'.req)
  {
  }

  lemma PemKeeps(p: Platform, l: Local, c: Choice)
    requires CacheOk(p, l.tpm, l.cachedPem)
    requires l.req.phase.PemFile? && !l.req.kind.VerifyAll? && TransactionOk(p, l)
    ensures StepOk(p, l, PemStep(l, c))
  {
    hide PcrOk, AkOk, EvidenceOk, CountOk, CacheOk, RequestOk;
    PemKeepsEvidence(p, l, c);
    PemKeepsAk(p, l, c);
    var l' := PemStep(l, c);
    TransactionStepOk(p, l.(cachedPem := l'.cachedPem), l'.req);
  }

  /** The blobs become the evidence; the second validation of the challenge cannot fail. */
  lemma EvidenceOfFiles(p: Platform, tpm: Tpm.Device, dir: Directory, req: Request)
    requires Ideal(p) && Canonical(req.vars.nonce) && SignedFiles(p, tpm, dir, req)
    requires tpm.pcr == Extended(p, req.vars.totalHash)
    ensures
      var req', e := ReadQuote(req, dir), ReadQuote(req, dir).vars.tpmEvidence;
      && req' == req.(phase := if req.kind.AttestationAll? then TdxReport else AkCache,
                      vars := req.vars.(tpmEvidence := e))
      && Quoted(p, tpm.keys[p.akHandle], req.vars.totalHash, req.vars.nonce, e)
  {
    CanonicalIsFixed(req.vars.nonce);
    hide NormalizeNonce, Canonical, FromHex, EncodeBlob, JoinQuote, Lower, ToHex;
  }

  /** Between signature and public key nothing but the evidence is added. */
  lemma EvidenceStepKeeps(p: Platform, l: Local, req: Request)
    requires PcrOk(p, l.tpm, l.dir, l.req) && AkOk(p, l.tpm, l.cachedPem, l.dir, l.req) && CountOk(l.req)
    requires 18 <= Rank(l.req.phase) < Rank(req.phase) <= 20 && !req.kind.InformationTpm?
    requires req.kind == l.req.kind && req.tally == l.req.tally
    requires req.vars == l.req.vars.(tpmEvidence := req.vars.tpmEvidence, tdxEvidence := req.vars.tdxEvidence)
    ensures PcrOk(p, l.tpm, l.dir, req) && AkOk(p, l.tpm, l.cachedPem, l.dir, req) && CountOk(req)
  {
  }

  lemma TransactionStepOk(p: Platform, l: Local, req: Request)
    requires CacheOk(p, l.tpm, l.cachedPem) && !req.kind.VerifyAll? && Rank(req.phase) > 1
    requires req.kind == l.req.kind && req.vars.scratch == l.req.vars.scratch
    requires TransactionOk(p, l.(req := req))
    ensures StepOk(p, l, l.(req := req))
  {
    hide PcrOk, AkOk, EvidenceOk, CountOk, VerificationOk, Honest;
  }

  lemma BlobsKeep(p: Platform, l: Local)
    requires Ideal(p) && CacheOk(p, l.tpm, l.cachedPem)
    requires l.req.phase.Blobs? && !l.req.kind.VerifyAll? && TransactionOk(p, l)
    ensures StepOk(p, l, l.(req := ReadQuote(l.req, l.dir)))
  {
    hide ReadQuote, SignedFiles, Canonical, NormalizeNonce, Quoted, Reported, PcrOk, AkOk, CountOk, StepOk;
    assert l.tpm.pcr == Extended(p, l.req.vars.totalHash) by { PcrIsExtended(p, l); }
    EvidenceOfFiles(p, l.tpm, l.dir, l.req);
    var req := ReadQuote(l.req, l.dir);
    EvidenceStepKeeps(p, l, req);
    TransactionStepOk(p, l, req);
  }

  lemma PcrIsExtended(p: Platform, l: Local)
    requires PcrOk(p, l.tpm, l.dir, l.req) && Rank(l.req.phase) >= 6
    ensures l.tpm.pcr == Extended(p, l.req.vars.totalHash)
  {
  }

  /** The module's report for the challenge, which decodes and fits. */
  lemma ReportOfNonce(p: Platform, req: Request, access: Tdx.Access)
    requires Ideal(p) && Canonical(req.vars.nonce) && req.vars.nonceSize == |DecodedOr(req.vars.nonce)|
    ensures
      var req', e := AttachReport(p, req, access), AttachReport(p, req, access).vars.tdxEvidence;
      if access.Present?
      then
        && req' == req.(phase := AkCache, vars := req.vars.(tdxEvidence := e))
        && e.Some? && Reported(p, req.vars.nonce, e.value)
      else req' == Fail(req, if access.Missing? then NotImplemented else Internal)
  {
    CanonicalIsFixed(req.vars.nonce);
    hide Canonical, NormalizeNonce, ToHex;
  }

  lemma ReportKeeps(p: Platform, l: Local, access: Tdx.Access)
    requires Ideal(p) && CacheOk(p, l.tpm, l.cachedPem)
    requires l.req.phase.TdxReport? && !l.req.kind.VerifyAll? && TransactionOk(p, l)
    ensures StepOk(p, l, l.(req := AttachReport(p, l.req, access)))
  {
    hide AttachReport, SignedFiles, Canonical, NormalizeNonce, Quoted, Reported, PcrOk, AkOk, CountOk, StepOk;
    ReportOfNonce(p, l.req, access);
    if access.Present? {
      var req := AttachReport(p, l.req, access);
      EvidenceStepKeeps(p, l, req);
      TransactionStepOk(p, l, req);
    } else {
      LeavingKeeps(p, l, Refused(if access.Missing? then NotImplemented else Internal));
    }
  }

  /** What is assembled is honest. */
  lemma AssembleKeeps(p: Platform, l: Local)
    requires Ideal(p) && CacheOk(p, l.tpm, l.cachedPem)
    requires l.req.phase.Assemble? && !l.req.kind.VerifyAll? && TransactionOk(p, l)
    ensures StepOk(p, l, l.(req := l.req.(phase := DropScratch(Replied(ReplyOf(l.req))))))
  {
    hide Canonical, NormalizeNonce, Quoted, Reported, VerificationOk, FromHex;
  }

  /** The verdict is the one on the posted attestation, whatever ran in between. */
  lemma CheckKeeps(p: Platform, l: Local, c: Choice)
    requires Ideal(p) && CacheOk(p, l.tpm, l.cachedPem)
    requires l.req.kind.VerifyAll? && RequestOk(p, l) && l.req.phase.CheckQuote?
    ensures StepOk(p, l, VerifyStep(p, l, c))
  {
    hide DecodeBlob, FromHex, Measured, Quoted, Reported, AkOf, NormalizeNonce, TransactionOk;
  }

  lemma DecodeKeeps(p: Platform, l: Local, c: Choice)
    requires Ideal(p) && CacheOk(p, l.tpm, l.cachedPem)
    requires l.req.kind.VerifyAll? && RequestOk(p, l) && l.req.phase.Decode?
    ensures StepOk(p, l, VerifyStep(p, l, c))
  {
    hide DecodeBlob, FromHex, Honest, TransactionOk;
  }

  lemma WriteSignatureKeeps(p: Platform, l: Local, c: Choice)
    requires Ideal(p) && CacheOk(p, l.tpm, l.cachedPem)
    requires l.req.kind.VerifyAll? && RequestOk(p, l) && l.req.phase.WriteSignature?
    ensures StepOk(p, l, VerifyStep(p, l, c))
  {
    hide DecodeBlob, FromHex, Honest, TransactionOk, CheckFiles, VerdictFor, AkOf;
    if !c.succeeds {
      LeavingKeeps(p, l, Refused(Internal));
    }
  }

  lemma WriteMessageKeeps(p: Platform, l: Local, c: Choice)
    requires Ideal(p) && CacheOk(p, l.tpm, l.cachedPem)
    requires l.req.kind.VerifyAll? && RequestOk(p, l) && l.req.phase.WriteMessage?
    ensures StepOk(p, l, VerifyStep(p, l, c))
  {
    hide DecodeBlob, FromHex, Honest, TransactionOk, CheckFiles, VerdictFor, AkOf;
    if !c.succeeds {
      LeavingKeeps(p, l, Refused(Internal));
    }
  }

  lemma WritePemKeeps(p: Platform, l: Local, c: Choice)
    requires Ideal(p) && CacheOk(p, l.tpm, l.cachedPem)
    requires l.req.kind.VerifyAll? && RequestOk(p, l) && l.req.phase.WritePem?
    ensures StepOk(p, l, VerifyStep(p, l, c))
  {
    hide DecodeBlob, FromHex, Honest, TransactionOk, CheckFiles, VerdictFor, AkOf;
    if !c.succeeds {
      LeavingKeeps(p, l, Refused(Internal));
    }
  }

  /** A request may give up at any time. */
  lemma LeavingKeeps(p: Platform, l: Local, outcome: Outcome)
    requires CacheOk(p, l.tpm, l.cachedPem) && IsLocal(l.req.phase) && RequestOk(p, l) && !outcome.Replied?
    ensures StepOk(p, l, l.(req := l.req.(phase := DropScratch(outcome))))
  {
    hide PcrOk, AkOk, EvidenceOk, VerificationOk, Honest;
  }

  lemma LocalKeeps(p: Platform, l: Local, c: Choice)
    requires Ideal(p) && CacheOk(p, l.tpm, l.cachedPem)
    requires IsLocal(l.req.phase) && RequestOk(p, l)
    ensures StepOk(p, l, LocalStep(p, l, c))
  {
    hide TransactionOk, Honest, VerificationOk, CommandStep, VerifyStep, MeasureStep, PcrFileStep, CacheStep, PemStep,
      ReadQuote, AttachReport, ReplyOf;
    LeavingKeeps(p, l, Panicked);
    LeavingKeeps(p, l, Refused(Internal));
    if IsCommand(l.req.phase) {
      CommandKeeps(p, l, c);
    } else if !c.panics {
      if l.req.kind.VerifyAll? {
        match l.req.phase
        case Decode => DecodeKeeps(p, l, c);
        case CheckQuote => CheckKeeps(p, l, c);
        case WriteSignature => WriteSignatureKeeps(p, l, c);
        case WriteMessage => WriteMessageKeeps(p, l, c);
        case _ => WritePemKeeps(p, l, c);
      } else {
        match l.req.phase
        case Measure => MeasureKeeps(p, l, c);
        case PcrFile => PcrFileKeeps(p, l, c);
        case Blobs => BlobsKeep(p, l);
        case TdxReport => ReportKeeps(p, l, c.access);
        case AkCache => CacheKeeps(p, l);
        case PemFile => PemKeeps(p, l, c);
        case Assemble => AssembleKeeps(p, l);
        case _ =>
      }
    }
  }

  /** A measuring request with a directory is inside its transaction. */
  lemma InTransaction(p: Platform, l: Local)
    requires RequestOk(p, l) && IsLocal(l.req.phase) && !l.req.kind.VerifyAll?
    ensures TransactionOk(p, l) && Rank(l.req.phase) > 1
  {
    hide PcrOk, AkOk, EvidenceOk, CountOk, VerificationOk, Honest;
  }

  lemma EvidenceParts(p: Platform, l: Local)
    requires EvidenceOk(p, l.tpm, l.dir, l.req) && (l.req.phase.Blobs? || l.req.phase.TdxReport?)
    ensures Canonical(l.req.vars.nonce) && l.req.vars.nonceSize == |DecodedOr(l.req.vars.nonce)|
    ensures l.req.phase.Blobs? ==> SignedFiles(p, l.tpm, l.dir, l.req)
  {
    hide Canonical, SignedFiles, NormalizeNonce;
  }

  // ----- the whole service -----

  /** What request `i` sees of the state; it sees files only while it has a directory. */
  function View(s: State, i: nat): Local
    requires i < |s.requests|
  {
    var req := s.requests[i];
    Local(s.tpm, s.cachedPem, if HasScratch(req) then DirectoryOf(s, req) else map[], req)
  }

  /** Exactly the holder of the lock is inside a transaction. */
  predicate LockOk(s: State) {
    && (s.holder.Some? ==> s.holder.value < |s.requests|)
    && forall i | 0 <= i < |s.requests| :: Locked(s.requests[i]) <==> s.holder == Some(i)
  }

  /** No two requests share a scratch directory. */
  predicate ScratchOk(s: State) {
    && (forall i | 0 <= i < |s.requests| && HasScratch(s.requests[i]) ::
          s.requests[i].vars.scratch < s.scratchCounter && s.requests[i].vars.scratch in s.scratch)
    && forall i, j | 0 <= i < j < |s.requests| && HasScratch(s.requests[i]) && HasScratch(s.requests[j]) ::
         s.requests[i].vars.scratch != s.requests[j].vars.scratch
  }

  predicate RequestsOk(p: Platform, s: State) {
    forall i | 0 <= i < |s.requests| :: RequestOk(p, View(s, i))
  }

  predicate Inv(p: Platform, s: State) {
    CacheOk(p, s.tpm, s.cachedPem) && LockOk(s) && ScratchOk(s) && RequestsOk(p, s)
  }

  /** A request outside the lock is not affected by what the holder does to TPM and cache. */
  lemma OutsideUnaffected(p: Platform, l: Local, tpm: Tpm.Device, cachedPem: Option<string>)
    requires RequestOk(p, l) && !Locked(l.req) && KeysKept(l.tpm, tpm)
    ensures RequestOk(p, l.(tpm := tpm, cachedPem := cachedPem))
  {
    hide NormalizeNonce, Canonical, Quoted, Reported, Measured, FromHex, DecodeBlob;
  }

  /** The effect of one turn of request `i` on the shared state. */
  ghost predicate Turned(s: State, s': State, i: nat)
    requires i < |s.requests|
  {
    && |s'.requests| == |s.requests| && KeysKept(s.tpm, s'.tpm)
    && (forall j | 0 <= j < |s.requests| && j != i :: s'.requests[j] == s.requests[j])
    && (!Locked(s.requests[i]) ==> s'.tpm == s.tpm && s'.cachedPem == s.cachedPem)
    && (forall j | 0 <= j < |s.requests| && j != i && HasScratch(s.requests[j]) ::
          s.requests[j].vars.scratch in s'.scratch
          && DirectoryOf(s', s.requests[j]) == DirectoryOf(s, s.requests[j]))
    && s.scratchCounter <= s'.scratchCounter
    && (HasScratch(s'.requests[i]) ==>
          && s'.requests[i].vars.scratch < s'.scratchCounter && s'.requests[i].vars.scratch in s'.scratch
          && ((HasScratch(s.requests[i]) && s'.requests[i].vars.scratch == s.requests[i].vars.scratch)
              || s'.requests[i].vars.scratch == s.scratchCounter))
  }

  lemma OthersKeep(p: Platform, s: State, s': State, i: nat)
    requires Inv(p, s) && i < |s.requests| && Turned(s, s', i)
    requires RequestOk(p, View(s', i))
    ensures RequestsOk(p, s') && ScratchOk(s')
  {
    hide RequestOk, TransactionOk, CacheOk, Locked, HasScratch;
    forall j | 0 <= j < |s.requests| && j != i ensures RequestOk(p, View(s', j)) {
      assert RequestOk(p, View(s, j));
      if Locked(s.requests[j]) {
        assert !Locked(s.requests[i]);
      } else {
        OutsideUnaffected(p, View(s, j), s'.tpm, s'.cachedPem);
      }
      assert View(s', j) == View(s, j).(tpm := s'.tpm, cachedPem := s'.cachedPem);
    }
  }

  lemma ScratchMeansInside(req: Request)
    requires HasScratch(req)
    ensures Locked(req) <==> !req.kind.VerifyAll?
  {
  }

  /** A step of `LocalStep` is a turn. */
  lemma LocalTurnKeeps(p: Platform, s: State, i: nat, c: Choice)
    requires Ideal(p) && Inv(p, s) && i < |s.requests| && IsLocal(s.requests[i].phase)
    ensures Inv(p, LocalTurn(p, s, i, c)) && KeysKept(s.tpm, LocalTurn(p, s, i, c).tpm)
  {
    hide LocalStep, RequestOk, CacheOk, IsLocal;
    var s' := LocalTurn(p, s, i, c);
    var l := View(s, i);
    LocalKeeps(p, l, c);
    var l' := LocalStep(p, l, c);
    ScratchMeansInside(l.req);
    ScratchMeansInside(l'.req);
    assert l.dir == DirectoryOf(s, s.requests[i]);
    assert s'.requests[i] == l'.req && s'.tpm == l'.tpm && s'.cachedPem == l'.cachedPem;
    assert View(s', i) == l';
    assert Turned(s, s', i);
    OthersKeep(p, s, s', i);
    assert LockOk(s');
  }

  // The turns outside a directory, first for the request alone, then for the state.

  /** Neither under the lock nor in possession of a directory. */
  predicate Outside(req: Request) {
    !Locked(req) && !HasScratch(req)
  }

  lemma EnterOk(p: Platform, l: Local, c: Choice)
    requires RequestOk(p, l) && l.req.phase.Arrived?
    ensures RequestOk(p, l.(req := Enter(p, l.req, c)))
  {
    AcceptedExactly(l.req.nonceText);
    hide NormalizeNonce, Canonical, Usable, Honest, Quoted, Reported, TransactionOk, SignedFiles, FromHex, DecodeBlob;
  }

  lemma EnterStaysOutside(p: Platform, req: Request, c: Choice)
    requires req.phase.Arrived?
    ensures Outside(req) && Outside(Enter(p, req, c))
  {
    hide NormalizeNonce;
  }

  lemma VerifyReportOk(p: Platform, l: Local, c: Choice)
    requires RequestOk(p, l) && l.req.phase.TdxVerify? && l.req.kind.VerifyAll?
    ensures RequestOk(p, l.(req := VerifyReport(p, l.req, c)))
    ensures Outside(l.req) && Outside(VerifyReport(p, l.req, c))
  {
    hide Honest, FromHex, DecodeBlob, TransactionOk;
  }

  lemma LeaveOk(p: Platform, l: Local, outcome: Outcome)
    requires RequestOk(p, l) && (outcome.Replied? ==> l.req.phase == DropScratch(outcome))
    requires l.req.phase.NewScratch? || l.req.phase.DropScratch?
    ensures RequestOk(p, l.(req := Leave(l.req, outcome), dir := map[]))
    ensures !HasScratch(Leave(l.req, outcome)) && (Locked(Leave(l.req, outcome)) <==> Locked(l.req))
  {
    hide Measured, Quoted, Reported, AkOf, NormalizeNonce, PcrOk, AkOk, EvidenceOk, VerificationOk;
  }

  lemma ScratchOkay(p: Platform, l: Local, id: nat, dir: Directory)
    requires RequestOk(p, l) && l.req.phase.NewScratch?
    ensures
      var next := if l.req.kind.VerifyAll? then Decode else Measure;
      var req := l.req.(phase := next, vars := l.req.vars.(scratch := id));
      && RequestOk(p, l.(req := req, dir := dir)) && HasScratch(req) && !HasScratch(l.req)
      && (Locked(req) <==> Locked(l.req))
  {
    hide NormalizeNonce, Canonical, Honest, Quoted, Reported, FromHex, DecodeBlob;
  }

  lemma LockedOkay(p: Platform, l: Local)
    requires RequestOk(p, l) && l.req.phase.WaitingForLock? && CacheOk(p, l.tpm, l.cachedPem)
    ensures
      var warm := p.akHandle in l.tpm.keys && l.cachedPem.Some?;
      var req := l.req.(phase := NewScratch, tally := l.req.tally.(warmAtLock := warm));
      RequestOk(p, l.(req := req)) && Outside(l.req) && Locked(req) && !HasScratch(req)
  {
    hide NormalizeNonce, Canonical, Honest, Quoted, Reported;
  }

  /** A turn that keeps the acting request keeps the state. */
  lemma TurnKeeps(p: Platform, s: State, s': State, i: nat)
    requires Inv(p, s) && i < |s.requests| && Turned(s, s', i) && RequestOk(p, View(s', i))
    requires s'.tpm == s.tpm && s'.cachedPem == s.cachedPem
    requires Locked(s'.requests[i]) <==> s'.holder == Some(i)
    requires s'.holder == s.holder || (s.holder.None? && s'.holder == Some(i))
             || (s.holder == Some(i) && s'.holder.None?)
    ensures Inv(p, s')
  {
    hide RequestOk, CacheOk;
    OthersKeep(p, s, s', i);
    forall j | 0 <= j < |s'.requests| ensures Locked(s'.requests[j]) <==> s'.holder == Some(j) {
      if j != i {
        assert s'.requests[j] == s.requests[j];
      }
    }
  }

  lemma EnterKeeps(p: Platform, s: State, i: nat, c: Choice)
    requires Inv(p, s) && i < |s.requests| && s.requests[i].phase.Arrived?
    ensures Inv(p, SetRequest(s, i, Enter(p, s.requests[i], c)))
  {
    hide RequestOk, CacheOk, Enter, HasScratch, Locked;
    EnterOk(p, View(s, i), c);
    EnterStaysOutside(p, s.requests[i], c);
    var s' := SetRequest(s, i, Enter(p, s.requests[i], c));
    assert View(s', i) == View(s, i).(req := s'.requests[i]);
    TurnKeeps(p, s, s', i);
  }

  lemma VerifyReportKeeps(p: Platform, s: State, i: nat, c: Choice)
    requires Inv(p, s) && i < |s.requests| && s.requests[i].phase.TdxVerify? && s.requests[i].kind.VerifyAll?
    ensures Inv(p, SetRequest(s, i, VerifyReport(p, s.requests[i], c)))
  {
    hide RequestOk, CacheOk, VerifyReport, HasScratch, Locked;
    VerifyReportOk(p, View(s, i), c);
    var s' := SetRequest(s, i, VerifyReport(p, s.requests[i], c));
    assert View(s', i) == View(s, i).(req := s'.requests[i]);
    TurnKeeps(p, s, s', i);
  }

  lemma LockTurnKeeps(p: Platform, s: State, i: nat)
    requires Inv(p, s) && i < |s.requests| && s.requests[i].phase.WaitingForLock?
    ensures Inv(p, LockTurn(p, s, i))
  {
    hide RequestOk, CacheOk, HasScratch, Locked;
    if s.holder.None? {
      LockedOkay(p, View(s, i));
      var s' := LockTurn(p, s, i);
      assert View(s', i) == View(s, i).(req := s'.requests[i]);
      TurnKeeps(p, s, s', i);
    }
  }

  lemma NotVerifying(p: Platform, l: Local)
    requires RequestOk(p, l) && (l.req.phase.WaitingForLock? || l.req.phase.Unlock?)
    ensures !l.req.kind.VerifyAll?
  {
  }

  lemma ScratchTurnKeeps(p: Platform, s: State, i: nat, c: Choice)
    requires Inv(p, s) && i < |s.requests| && s.requests[i].phase.NewScratch? && s.scratchCounter < SCRATCH_IDS
    ensures Inv(p, ScratchTurn(s, i, c))
  {
    hide RequestOk, CacheOk, HasScratch, Locked, Leave;
    var s', l := ScratchTurn(s, i, c), View(s, i);
    if c.panics || !c.succeeds {
      LeaveOk(p, l, if c.panics then Panicked else Refused(Internal));
      assert View(s', i) == l.(req := s'.requests[i], dir := map[]);
    } else {
      ScratchOkay(p, l, s.scratchCounter, DirectoryOf(s', s'.requests[i]));
      assert View(s', i) == l.(req := s'.requests[i], dir := DirectoryOf(s', s'.requests[i]));
    }
    TurnKeeps(p, s, s', i);
  }

  lemma DropTurnKeeps(p: Platform, s: State, i: nat, c: Choice)
    requires Inv(p, s) && i < |s.requests| && s.requests[i].phase.DropScratch?
    ensures Inv(p, DropTurn(s, i, c))
  {
    hide RequestOk, CacheOk;
    LeaveOk(p, View(s, i), s.requests[i].phase.outcome);
    var s' := DropTurn(s, i, c);
    assert View(s', i) == View(s, i).(req := s'.requests[i], dir := map[]);
    TurnKeeps(p, s, s', i);
  }

  lemma UnlockTurnKeeps(p: Platform, s: State, i: nat)
    requires Inv(p, s) && i < |s.requests| && s.requests[i].phase.Unlock?
    ensures Inv(p, UnlockTurn(s, i))
  {
    var s' := UnlockTurn(s, i);
    NotVerifying(p, View(s, i));
    hide Honest, CacheOk;
    assert RequestOk(p, View(s, i));
    assert RequestOk(p, View(s', i));
    hide RequestOk;
    TurnKeeps(p, s, s', i);
  }

  lemma ArriveKeeps(p: Platform, s: State, kind: Kind, nonceText: string)
    requires Inv(p, s)
    ensures Inv(p, Next(p, s, Arrive(kind, nonceText)))
  {
    var s' := Next(p, s, Arrive(kind, nonceText));
    forall i | 0 <= i < |s.requests| ensures View(s', i) == View(s, i) {
    }
    assert RequestOk(p, View(s', |s.requests|));
    hide RequestOk, CacheOk;
    forall i | 0 <= i < |s'.requests| ensures RequestOk(p, View(s', i)) {
      if i < |s.requests| {
        assert RequestOk(p, View(s, i));
      }
    }
  }

  /** Every action keeps the invariant and every persistent key. */
  lemma NextKeeps(p: Platform, s: State, a: Action)
    requires Ideal(p) && Inv(p, s) && s.scratchCounter < SCRATCH_IDS
    ensures Inv(p, Next(p, s, a)) && KeysKept(s.tpm, Next(p, s, a).tpm)
    ensures Next(p, s, a).scratchCounter <= s.scratchCounter + 1
  {
    hide Inv, RequestOk, Enter, VerifyReport, LocalStep;
    match a
    case Arrive(kind, nonceText) => ArriveKeeps(p, s, kind, nonceText);
    case Turn(i, c) =>
      if i < |s.requests| {
        if IsLocal(s.requests[i].phase) {
          LocalTurnKeeps(p, s, i, c);
        } else {
          match s.requests[i].phase
          case Arrived => EnterKeeps(p, s, i, c);
          case TdxVerify => if s.requests[i].kind.VerifyAll? { VerifyReportKeeps(p, s, i, c); }
          case WaitingForLock => LockTurnKeeps(p, s, i);
          case NewScratch => ScratchTurnKeeps(p, s, i, c);
          case DropScratch(_) => DropTurnKeeps(p, s, i, c);
          case Unlock(_) => UnlockTurnKeeps(p, s, i);
          case _ =>
        }
      }
  }
}
