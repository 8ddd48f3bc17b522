/** Who is to blame for a refusal: `InvalidInput` is answered for malformed requests, and for no others. */
module Refusals {
  import opened Wrappers
  import opened Text
  import opened Codec
  import opened Nonce
  import opened Tpm
  import opened Service
  import opened Safety
  import opened Guarantees
  import opened Progress
  import opened Release
  import Tdx

  /** What can be told to be wrong with a request without asking any device. */
  predicate Malformed(req: Request) {
    match req.kind
    case InformationTpm => false
    case VerifyAll(body) =>
      || body.tdx.None? || FromHex(body.tdx.value.report).None?
      || |FromHex(body.tdx.value.report).value| != Tdx.TDREPORT_LEN
      || DecodeBlob(body.tpm.signature).Err? || DecodeBlob(body.tpm.message).Err?
    case _ => !Usable(req.nonceText)
  }

  predicate Challenged(req: Request) {
    req.kind.QuoteTpm? || req.kind.AttestationAll?
  }

  function OutcomeOf(phase: Phase): Option<Outcome> {
    if phase.DropScratch? || phase.Unlock? || phase.Finished? then Some(phase.outcome) else None
  }

  /** The caller is blamed only for malformed requests, and an unusable challenge gets no further. */
  predicate Fair(req: Request) {
    && (OutcomeOf(req.phase) == Some(Refused(InvalidInput)) ==> Malformed(req))
    && (Challenged(req) && Malformed(req) ==>
          req.phase.Arrived? || req.phase == Finished(Panicked) || req.phase == Finished(Refused(InvalidInput)))
  }

  ghost predicate AllFair(s: State) {
    forall i | 0 <= i < |s.requests| :: Fair(s.requests[i])
  }

  /** A request that is neither malformed nor blamed is treated fairly. */
  lemma FairAfter(req: Request, req': Request)
    requires SameRequest(req, req') && Fair(req) && !req.phase.Arrived? && !req.phase.Finished?
    requires OutcomeOf(req'.phase) == Some(Refused(InvalidInput)) ==> Malformed(req)
    ensures Fair(req')
  {
    hide Usable, FromHex, DecodeBlob;
  }

  lemma CommandIsFair(p: Platform, l: Local, c: Choice)
    requires IsCommand(l.req.phase)
    ensures
      var req := CommandStep(p, l, c).req;
      SameRequest(l.req, req) && OutcomeOf(req.phase) != Some(Refused(InvalidInput))
  {
    hide Issue, CommandOf;
  }

  lemma QuoteIsFair(p: Platform, l: Local)
    requires Ideal(p) && TransactionOk(p, l) && l.req.phase.Blobs?
    ensures
      var req := ReadQuote(l.req, l.dir);
      SameRequest(l.req, req) && OutcomeOf(req.phase).None?
  {
    hide PcrOk, AkOk, CountOk, EvidenceOk, ReadQuote, SignedFiles, Canonical, Quoted, NormalizeNonce;
    EvidenceParts(p, l);
    PcrIsExtended(p, l);
    EvidenceOfFiles(p, l.tpm, l.dir, l.req);
  }

  lemma ReportIsFair(p: Platform, l: Local, access: Tdx.Access)
    requires Ideal(p) && TransactionOk(p, l) && l.req.phase.TdxReport?
    ensures
      var req := AttachReport(p, l.req, access);
      SameRequest(l.req, req) && OutcomeOf(req.phase) != Some(Refused(InvalidInput))
  {
    hide PcrOk, AkOk, CountOk, EvidenceOk, AttachReport, SignedFiles, Canonical, Reported, NormalizeNonce;
    EvidenceParts(p, l);
    ReportOfNonce(p, l.req, access);
  }

  lemma MeasuringStepIsFair(p: Platform, l: Local, c: Choice)
    requires Ideal(p) && RequestOk(p, l) && IsLocal(l.req.phase) && !l.req.kind.VerifyAll?
    ensures
      var req := LocalStep(p, l, c).req;
      SameRequest(l.req, req) && OutcomeOf(req.phase) != Some(Refused(InvalidInput))
  {
    hide RequestOk, TransactionOk, ReadQuote, AttachReport, CommandStep, ReplyOf, Ideal;
    InTransaction(p, l);
    if IsCommand(l.req.phase) {
      CommandIsFair(p, l, c);
    } else if l.req.phase.Blobs? {
      QuoteIsFair(p, l);
    } else if l.req.phase.TdxReport? {
      ReportIsFair(p, l, c.access);
    }
  }

  lemma VerifyingStepIsFair(p: Platform, l: Local, c: Choice)
    requires l.req.kind.VerifyAll? && IsLocal(l.req.phase) && Rank(l.req.phase) == 0
    ensures
      var req := LocalStep(p, l, c).req;
      && SameRequest(l.req, req)
      && (OutcomeOf(req.phase) == Some(Refused(InvalidInput)) ==> Malformed(l.req))
  {
    hide FromHex, DecodeBlob, CommandStep, CheckFiles;
    BlobErrors(l.req.kind.body.tpm.signature);
    BlobErrors(l.req.kind.body.tpm.message);
  }

  lemma BlobErrors(text: string)
    ensures DecodeBlob(text).Err? ==> DecodeBlob(text).error == InvalidInput
  {
  }

  /** A verification is in none of the phases of a transaction. */
  lemma VerificationPhase(p: Platform, l: Local)
    requires RequestOk(p, l) && l.req.kind.VerifyAll? && IsLocal(l.req.phase)
    ensures Rank(l.req.phase) == 0
  {
    hide TransactionOk, VerificationOk, OutcomeOk;
  }

  lemma LocalTurnIsFair(p: Platform, s: State, i: nat, c: Choice)
    requires Ideal(p) && Inv(p, s) && i < |s.requests| && Fair(s.requests[i]) && IsLocal(s.requests[i].phase)
    ensures Fair(LocalTurn(p, s, i, c).requests[i])
  {
    var l := View(s, i);
    assert RequestOk(p, l) && HasScratch(s.requests[i]);
    hide RequestOk, LocalStep, Fair, Malformed;
    if l.req.kind.VerifyAll? {
      VerificationPhase(p, l);
      VerifyingStepIsFair(p, l, c);
    } else {
      MeasuringStepIsFair(p, l, c);
    }
    FairAfter(l.req, LocalStep(p, l, c).req);
  }

  lemma EnterIsFair(p: Platform, req: Request, c: Choice)
    requires req.phase.Arrived? && Fair(req)
    ensures Fair(Enter(p, req, c))
  {
    AcceptedExactly(req.nonceText);
    hide NormalizeNonce, Usable, Canonical, FromHex, DecodeBlob;
  }

  lemma VerifyReportIsFair(p: Platform, req: Request, c: Choice)
    requires req.phase.TdxVerify? && req.kind.VerifyAll?
    ensures Fair(VerifyReport(p, req, c))
  {
    hide DecodeBlob, FromHex;
  }

  lemma OtherTurnIsFair(p: Platform, s: State, i: nat, c: Choice)
    requires i < |s.requests| && Fair(s.requests[i]) && !IsLocal(s.requests[i].phase)
    ensures Fair(TakeTurn(p, s, i, c).requests[i])
  {
    var req := s.requests[i];
    match req.phase {
      case Arrived => EnterIsFair(p, req, c);
      case TdxVerify => if req.kind.VerifyAll? { VerifyReportIsFair(p, req, c); }
      case _ =>
    }
    hide Usable, FromHex, DecodeBlob, Enter, VerifyReport, LocalTurn;
  }

  lemma NextIsFair(p: Platform, s: State, a: Action)
    requires Ideal(p) && Inv(p, s) && AllFair(s)
    ensures AllFair(Next(p, s, a))
  {
    if a.Turn? && a.id < |s.requests| {
      OthersStay(p, s, a.id, a.choice);
      if IsLocal(s.requests[a.id].phase) {
        LocalTurnIsFair(p, s, a.id, a.choice);
      } else {
        OtherTurnIsFair(p, s, a.id, a.choice);
      }
      hide Inv, Fair, TakeTurn;
    } else {
      hide Inv, Malformed;
    }
  }

  lemma {:induction false} RunIsFair(p: Platform, s: State, actions: seq<Action>)
    requires Ideal(p) && Inv(p, s) && AllFair(s) && s.scratchCounter + |actions| <= SCRATCH_IDS
    ensures AllFair(Run(p, s, actions))
    decreases |actions|
  {
    hide Inv, Next, AllFair, Ideal;
    if actions != [] {
      NextKeeps(p, s, actions[0]);
      NextIsFair(p, s, actions[0]);
      RunIsFair(p, Next(p, s, actions[0]), actions[1..]);
    }
  }

  lemma ReachableIsFair(p: Platform, s: State)
    requires Ideal(p) && Reachable(p, s)
    ensures AllFair(s)
  {
    hide Inv, Run, Ideal, Fair;
    var s0, actions :| Initial(s0) && |actions| < SCRATCH_IDS && s == Run(p, s0, actions);
    InitialOk(p, s0);
    RunIsFair(p, s0, actions);
  }

  /** An answered request is not malformed. */
  lemma AnsweredIsWellFormed(p: Platform, tpm: Tpm.Device, req: Request, reply: Reply)
    requires Honest(p, tpm, req, reply)
    ensures !Malformed(req)
  {
    AcceptedExactly(req.nonceText);
    hide NormalizeNonce, Usable, Canonical, Measured, Quoted, Reported, FromHex, DecodeBlob, AkOf;
  }

  /**
   * Nobody but the caller of a malformed request is told `InvalidInput`; no malformed request is
   * answered; and a request with an unusable challenge that is refused is refused for that.
   */
  lemma BlameIsFair(p: Platform, s: State, i: nat, outcome: Outcome)
    requires Ideal(p) && Reachable(p, s) && i < |s.requests| && s.requests[i].phase == Finished(outcome)
    ensures outcome == Refused(InvalidInput) ==> Malformed(s.requests[i])
    ensures outcome.Replied? ==> !Malformed(s.requests[i])
    ensures Challenged(s.requests[i]) && outcome.Refused? ==>
              (outcome.error == InvalidInput <==> !Usable(s.requests[i].nonceText))
  {
    ReachableIsFair(p, s);
    assert Fair(s.requests[i]);
    hide Usable, FromHex, DecodeBlob, Honest, Ideal, Reachable;
    if outcome.Replied? {
      AnswersAreHonest(p, s, i, outcome.reply);
      AnsweredIsWellFormed(p, s.tpm, s.requests[i], outcome.reply);
    }
  }
}
