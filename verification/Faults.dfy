/** Which failure of which step refuses a request, and with which error. */
module Faults {
  import opened Wrappers
  import opened Text
  import opened Codec
  import opened Nonce
  import opened Tpm
  import opened Service
  import opened Safety
  import opened Guarantees
  import opened Progress
  import opened Release
  import opened Refusals
  import opened Schedules
  import opened Trials
  import Tdx

  // ----- one step -----

  /** The error of a command that does not succeed. */
  function CommandError(fate: Fate): Option<Error> {
    match fate
    case Unreachable => Some(NotImplemented)
    case Rejected => Some(Internal)
    case _ => None
  }

  /**
   * The error a step inside a directory refuses with. Starting a TPM that is running already, flushing, and
   * whatever concerns a key that is optional refuse nothing.
   */
  function RefusalOf(p: Platform, l: Local, c: Choice): Option<Error> {
    var ph := l.req.phase;
    if IsCommand(ph) then
      var fate := Issue(p, l.tpm, l.dir, CommandOf(p, l.req), c).2;
      if ph.StartTpm? then if fate.Unreachable? then Some(NotImplemented) else None
      else if ph.ResetPcr? || ph.ExtendPcr? || ph.ReadPcr? || ph.SignQuote? then CommandError(fate)
      else if (ph.GetCap? || ph.MakeEk? || ph.MakeAk? || ph.PersistAk?) && !l.req.kind.InformationTpm? then
        CommandError(fate)
      else None
    else
      match ph
      case Measure => if DigestOf(p, c.reading).None? then Some(Internal) else None
      case PcrFile => if c.succeeds then None else Some(Internal)
      case Blobs => if c.succeeds then None else Some(Internal)
      case TdxReport =>
        (match c.access
         case Present => None
         case Missing => Some(NotImplemented)
         case Broken => Some(Internal))
      case Decode =>
        if l.req.kind.VerifyAll?
           && (DecodeBlob(l.req.kind.body.tpm.signature).Err? || DecodeBlob(l.req.kind.body.tpm.message).Err?)
        then Some(InvalidInput) else None
      case WriteSignature => if c.succeeds then None else Some(Internal)
      case WriteMessage => if c.succeeds then None else Some(Internal)
      case WritePem => if c.succeeds then None else Some(Internal)
      case CheckQuote => if c.succeeds then None else Some(if c.unreachable then NotImplemented else Internal)
      case _ => None
  }

  predicate RefusedWith(req: Request, e: Option<Error>) {
    if e.Some? then req.phase == DropScratch(Refused(e.value))
    else !(req.phase.DropScratch? && req.phase.outcome.Refused?)
  }

  lemma MeasuringCommandRefuses(req: Request, fate: Fate, akPresent: bool)
    requires IsCommand(req.phase) && Rank(req.phase) <= 8 && !fate.Crashed?
    ensures
      var e := if req.phase.StartTpm? then if fate.Unreachable? then Some(NotImplemented) else None
               else if req.phase.GetCap? && req.kind.InformationTpm? then None
               else CommandError(fate);
      RefusedWith(AfterCommand(req, fate, akPresent), e)
  {
  }

  lemma SigningCommandRefuses(req: Request, fate: Fate, akPresent: bool)
    requires IsCommand(req.phase) && Rank(req.phase) > 8 && !fate.Crashed?
    ensures
      var e := if IsFlush(req.phase) || req.phase.ReadAk? then None
               else if req.kind.InformationTpm? && !req.phase.SignQuote? then None
               else CommandError(fate);
      RefusedWith(AfterCommand(req, fate, akPresent), e)
  {
  }

  lemma CommandRefuses(p: Platform, l: Local, c: Choice)
    requires IsCommand(l.req.phase) && !c.panics
    ensures RefusedWith(CommandStep(p, l, c).req, RefusalOf(p, l, c))
  {
    var (tpm, dir, fate) := Issue(p, l.tpm, l.dir, CommandOf(p, l.req), c);
    assert !fate.Crashed?;
    if Rank(l.req.phase) <= 8 {
      MeasuringCommandRefuses(Counted(l.req), fate, p.akHandle in tpm.keys);
    } else {
      SigningCommandRefuses(Counted(l.req), fate, p.akHandle in tpm.keys);
    }
    hide Issue, CommandOf, AfterCommand, RefusedWith;
  }

  lemma BlobsRefuse(p: Platform, l: Local)
    requires Ideal(p) && TransactionOk(p, l) && l.req.phase.Blobs?
    ensures RefusedWith(ReadQuote(l.req, l.dir), None)
  {
    hide PcrOk, AkOk, CountOk, EvidenceOk, ReadQuote, SignedFiles, Canonical, Quoted, NormalizeNonce;
    EvidenceParts(p, l);
    PcrIsExtended(p, l);
    EvidenceOfFiles(p, l.tpm, l.dir, l.req);
  }

  lemma ReportRefuses(p: Platform, l: Local, c: Choice)
    requires Ideal(p) && TransactionOk(p, l) && l.req.phase.TdxReport?
    ensures RefusedWith(AttachReport(p, l.req, c.access), RefusalOf(p, l, c))
  {
    hide PcrOk, AkOk, CountOk, EvidenceOk, AttachReport, SignedFiles, Canonical, Reported, NormalizeNonce;
    EvidenceParts(p, l);
    ReportOfNonce(p, l.req, c.access);
  }

  lemma PcrFileRefuses(p: Platform, l: Local, c: Choice)
    requires TransactionOk(p, l) && CacheOk(p, l.tpm, l.cachedPem) && l.req.phase.PcrFile?
    ensures RefusedWith(PcrFileStep(l, c).req, RefusalOf(p, l, c))
  {
    PcrIsThere(p, l);
    hide TransactionOk, CacheOk, ReadFile;
  }

  lemma VerificationIsVerify(p: Platform, l: Local, c: Choice)
    requires l.req.kind.VerifyAll? && IsLocal(l.req.phase) && Rank(l.req.phase) == 0 && !c.panics
    ensures LocalStep(p, l, c) == VerifyStep(p, l, c) && !IsCommand(l.req.phase)
    ensures || l.req.phase.Decode? || l.req.phase.WriteSignature? || l.req.phase.WriteMessage?
            || l.req.phase.WritePem? || l.req.phase.CheckQuote?
  {
    hide VerifyStep, CommandStep;
  }

  lemma DecodeRefuses(p: Platform, l: Local, c: Choice)
    requires l.req.kind.VerifyAll? && l.req.phase.Decode?
    ensures RefusedWith(VerifyStep(p, l, c).req, RefusalOf(p, l, c))
    ensures RefusalOf(p, l, c).None? ==> VerifyStep(p, l, c).req.phase.WriteSignature?
  {
    BlobErrors(l.req.kind.body.tpm.signature);
    BlobErrors(l.req.kind.body.tpm.message);
    hide DecodeBlob, CheckFiles, Issue, DigestOf;
  }

  lemma WriteRefuses(p: Platform, l: Local, c: Choice)
    requires l.req.kind.VerifyAll?
    requires l.req.phase.WriteSignature? || l.req.phase.WriteMessage? || l.req.phase.WritePem?
    ensures RefusedWith(VerifyStep(p, l, c).req, RefusalOf(p, l, c))
  {
    hide DecodeBlob, CheckFiles, Issue, DigestOf;
  }

  lemma CheckRefuses(p: Platform, l: Local, c: Choice)
    requires l.req.kind.VerifyAll? && l.req.phase.CheckQuote?
    ensures RefusedWith(VerifyStep(p, l, c).req, RefusalOf(p, l, c))
  {
    hide DecodeBlob, CheckFiles, Issue, DigestOf;
  }

  lemma VerificationRefuses(p: Platform, l: Local, c: Choice)
    requires l.req.kind.VerifyAll? && IsLocal(l.req.phase) && Rank(l.req.phase) == 0 && !c.panics
    ensures RefusedWith(LocalStep(p, l, c).req, RefusalOf(p, l, c))
  {
    VerificationIsVerify(p, l, c);
    hide LocalStep, VerifyStep, RefusedWith, RefusalOf, IsLocal, Rank;
    if l.req.phase.Decode? {
      DecodeRefuses(p, l, c);
    } else if l.req.phase.CheckQuote? {
      CheckRefuses(p, l, c);
    } else {
      WriteRefuses(p, l, c);
    }
  }

  lemma MeasuringRefuses(p: Platform, l: Local, c: Choice)
    requires Ideal(p) && TransactionOk(p, l) && CacheOk(p, l.tpm, l.cachedPem)
    requires IsLocal(l.req.phase) && !l.req.kind.VerifyAll? && Rank(l.req.phase) > 1 && !c.panics
    ensures RefusedWith(LocalStep(p, l, c).req, RefusalOf(p, l, c))
  {
    hide Ideal, TransactionOk, CacheOk, CommandStep, ReadQuote, AttachReport, PcrFileStep, ReplyOf, DigestOf, ReadFile;
    if IsCommand(l.req.phase) {
      CommandRefuses(p, l, c);
      hide RefusalOf, RefusedWith;
    } else if l.req.phase.Blobs? {
      BlobsRefuse(p, l);
    } else if l.req.phase.TdxReport? {
      ReportRefuses(p, l, c);
      hide RefusalOf, RefusedWith;
    } else if l.req.phase.PcrFile? {
      PcrFileRefuses(p, l, c);
      hide RefusalOf, RefusedWith;
    }
  }

  /** In every reachable situation a step that does not panic refuses exactly with that error. */
  lemma RefusedExactly(p: Platform, s: State, i: nat, c: Choice)
    requires Ideal(p) && Inv(p, s) && i < |s.requests| && IsLocal(s.requests[i].phase) && !c.panics
    ensures RefusedWith(LocalTurn(p, s, i, c).requests[i], RefusalOf(p, View(s, i), c))
  {
    var l := View(s, i);
    LocalIsInside(l.req);
    assert RequestOk(p, l) && CacheOk(p, l.tpm, l.cachedPem);
    hide RequestOk, LocalStep, RefusedWith, RefusalOf, CacheOk, Ideal, TransactionOk;
    if l.req.kind.VerifyAll? {
      VerificationPhase(p, l);
      VerificationRefuses(p, l, c);
    } else {
      InTransaction(p, l);
      MeasuringRefuses(p, l, c);
    }
  }

  lemma EnterLeads(p: Platform, req: Request, c: Choice)
    requires req.phase.Arrived? && !c.panics
    ensures
      var ph := Enter(p, req, c).phase;
      && (req.kind.InformationTpm? ==> ph == WaitingForLock)
      && (Challenged(req) ==> ph == if Usable(req.nonceText) then WaitingForLock else Finished(Refused(InvalidInput)))
      && (req.kind.VerifyAll? ==>
            ph == if req.kind.body.tdx.Some? then TdxVerify else Finished(Refused(InvalidInput)))
  {
    AcceptedExactly(req.nonceText);
    hide NormalizeNonce, Usable, Canonical;
  }

  lemma EnterTurn(p: Platform, s: State, i: nat, c: Choice)
    requires i < |s.requests| && s.requests[i].phase.Arrived?
    ensures |Next(p, s, Turn(i, c)).requests| == |s.requests|
    ensures Next(p, s, Turn(i, c)).requests[i] == Enter(p, s.requests[i], c)
  {
    hide Enter, LocalTurn, VerifyReport, LockTurn, ScratchTurn, DropTurn, UnlockTurn;
  }

  /** What the first turn of a request comes to if it does not panic: it waits, or it is told its fault. */
  lemma EnteredExactly(p: Platform, s: State, i: nat, c: Choice)
    requires i < |s.requests| && s.requests[i].phase.Arrived? && !c.panics
    ensures
      var (req, ph) := (s.requests[i], Next(p, s, Turn(i, c)).requests[i].phase);
      && (req.kind.InformationTpm? ==> ph == WaitingForLock)
      && (Challenged(req) ==> ph == if Usable(req.nonceText) then WaitingForLock else Finished(Refused(InvalidInput)))
      && (req.kind.VerifyAll? ==>
            ph == if req.kind.body.tdx.Some? then TdxVerify else Finished(Refused(InvalidInput)))
  {
    EnterTurn(p, s, i, c);
    EnterLeads(p, s.requests[i], c);
    hide Next, Enter, Usable, Challenged;
  }

  /** What becomes of a posted report: a fault of its own comes before one of the device. */
  lemma ReportJudgedExactly(p: Platform, s: State, i: nat, c: Choice)
    requires i < |s.requests| && s.requests[i].phase.TdxVerify? && !c.panics
    requires s.requests[i].kind.VerifyAll? && s.requests[i].kind.body.tdx.Some?
    ensures
      var (report, req') := (FromHex(s.requests[i].kind.body.tdx.value.report), Next(p, s, Turn(i, c)).requests[i]);
      if report.None? || |report.value| != 1024 then req'.phase == Finished(Refused(InvalidInput))
      else
        match c.access
        case Missing => req'.phase == Finished(Refused(NotImplemented))
        case Broken => req'.phase == Finished(Refused(Internal))
        case Present => req'.phase.NewScratch? && (req'.vars.tdxTrusted <==> p.tdx.verify(report.value) == 0)
  {
    hide FromHex, LocalTurn, Enter, LockTurn, ScratchTurn, DropTurn, UnlockTurn;
  }

  // ----- a backend that cannot be reached -----

  /** Neither the TPM nor the TDX device is out of reach. */
  predicate Reaches(c: Choice) {
    !c.unreachable && !c.access.Missing?
  }

  predicate Unserved(req: Request) {
    OutcomeOf(req.phase) == Some(Refused(NotImplemented))
  }

  lemma ReachedStepServes(p: Platform, l: Local, c: Choice)
    requires Reaches(c)
    ensures RefusalOf(p, l, c) != Some(NotImplemented)
  {
    hide DigestOf, DecodeBlob, Perform;
  }

  lemma EnterServes(p: Platform, req: Request, c: Choice)
    requires req.phase.Arrived?
    ensures !Unserved(Enter(p, req, c))
  {
    AcceptedExactly(req.nonceText);
    hide NormalizeNonce, Usable, Canonical;
  }

  lemma VerifyReportServes(p: Platform, req: Request, c: Choice)
    requires req.kind.VerifyAll? && Reaches(c)
    ensures !Unserved(VerifyReport(p, req, c))
  {
    hide FromHex;
  }

  lemma ScratchServes(s: State, i: nat, c: Choice)
    requires i < |s.requests| && s.requests[i].phase.NewScratch?
    ensures !Unserved(ScratchTurn(s, i, c).requests[i])
  {
  }

  lemma LeavingServes(req: Request, req': Request)
    requires !Unserved(req) && (OutcomeOf(req'.phase) == OutcomeOf(req.phase) || req'.phase.NewScratch?)
    ensures !Unserved(req')
  {
  }

  lemma OwnTurnServes(p: Platform, s: State, i: nat, c: Choice)
    requires Ideal(p) && Inv(p, s) && i < |s.requests| && Reaches(c) && !Unserved(s.requests[i])
    ensures !Unserved(TakeTurn(p, s, i, c).requests[i])
  {
    var req, req' := s.requests[i], TakeTurn(p, s, i, c).requests[i];
    hide LocalTurn, Inv, Ideal, Enter, VerifyReport, ScratchTurn, Unserved, Reaches;
    if IsLocal(req.phase) {
      LocalTurnServes(p, s, i, c);
    } else {
      match req.phase {
        case Arrived => EnterServes(p, req, c);
        case TdxVerify => if req.kind.VerifyAll? { VerifyReportServes(p, req, c); }
        case NewScratch => ScratchServes(s, i, c);
        case _ => LeavingServes(req, req');
      }
    }
  }

  lemma UnservedIsRefused(req: Request, e: Option<Error>)
    requires RefusedWith(req, e) && e != Some(NotImplemented) && (IsLocal(req.phase) || req.phase.DropScratch?)
    ensures !Unserved(req)
  {
  }

  lemma PanickedIsServed(req: Request)
    requires req.phase == DropScratch(Panicked)
    ensures !Unserved(req)
  {
  }

  lemma LocalTurnServes(p: Platform, s: State, i: nat, c: Choice)
    requires Ideal(p) && Inv(p, s) && i < |s.requests| && Reaches(c) && IsLocal(s.requests[i].phase)
    ensures !Unserved(LocalTurn(p, s, i, c).requests[i])
  {
    var req' := LocalTurn(p, s, i, c).requests[i];
    LocalIsInside(s.requests[i]);
    hide Inv, Ideal, LocalStep, RefusalOf, Unserved, RefusedWith, IsLocal, Reaches;
    if c.panics {
      PanickedStep(p, View(s, i), c);
      PanickedIsServed(req');
    } else {
      RefusedExactly(p, s, i, c);
      ReachedStepServes(p, View(s, i), c);
      LocalTurnStaysInside(p, s, i, c);
      UnservedIsRefused(req', RefusalOf(p, View(s, i), c));
    }
  }

  lemma PanickedStep(p: Platform, l: Local, c: Choice)
    requires IsLocal(l.req.phase) && c.panics
    ensures LocalStep(p, l, c).req.phase == DropScratch(Panicked)
  {
    hide CommandOf, Perform;
  }

  /** A step ends in a directory or in dropping it. */
  lemma LocalTurnStaysInside(p: Platform, s: State, i: nat, c: Choice)
    requires Ideal(p) && Inv(p, s) && i < |s.requests| && IsLocal(s.requests[i].phase)
    ensures
      var ph := LocalTurn(p, s, i, c).requests[i].phase;
      IsLocal(ph) || ph.DropScratch?
  {
    LocalIsInside(s.requests[i]);
    assert RequestOk(p, View(s, i));
    LocalKeeps(p, View(s, i), c);
    hide LocalStep, Inv, RequestOk, IsLocal, Ideal;
  }

  /**
   * `NotImplemented` is told only when a backend was out of reach: in every continuation in which all turns
   * of a request reach TPM and TDX device, however they fail, it is not refused with that error.
   */
  lemma {:induction false} OutOfReachOnly(p: Platform, s: State, i: nat, actions: seq<Action>)
    requires Ideal(p) && Inv(p, s) && s.scratchCounter + |actions| <= SCRATCH_IDS
    requires i < |s.requests| && !Unserved(s.requests[i])
    requires forall k | 0 <= k < |actions| && Own(actions[k], i) :: Reaches(actions[k].choice)
    ensures i < |Run(p, s, actions).requests| && !Unserved(Run(p, s, actions).requests[i])
    decreases |actions|
  {
    hide Inv, Ideal, Unserved, Reaches, TakeTurn;
    if actions != [] {
      var a := actions[0];
      NextKeeps(p, s, a);
      if Own(a, i) {
        OwnTurnServes(p, s, i, a.choice);
        OthersStay(p, s, i, a.choice);
      } else {
        OthersLeaveTheView(p, s, i, a);
      }
      assert forall k | 0 <= k < |actions| - 1 :: actions[1..][k] == actions[k + 1];
      OutOfReachOnly(p, Next(p, s, a), i, actions[1..]);
    }
  }

  // ----- malformed requests -----

  /** A malformed request on its way to being told so. */
  predicate AtFault(req: Request) {
    && Malformed(req) && StepsLeft(req) < 20
    && (|| req.phase.Arrived? || req.phase == Finished(Refused(InvalidInput))
        || (req.kind.VerifyAll? && req.kind.body.tdx.Some?
            && (|| req.phase.TdxVerify? || req.phase == DropScratch(Refused(InvalidInput))
                || ((req.phase.NewScratch? || req.phase.Decode?)
                    && FromHex(req.kind.body.tdx.value.report).Some?
                    && |FromHex(req.kind.body.tdx.value.report).value| == Tdx.TDREPORT_LEN))))
  }

  predicate FaultNearer(req: Request, req': Request) {
    AtFault(req') && StepsLeft(req') < StepsLeft(req)
  }

  lemma EnterFindsFault(p: Platform, req: Request, c: Choice)
    requires AtFault(req) && req.phase.Arrived? && SmoothStep(p, c, false)
    ensures FaultNearer(req, Enter(p, req, c))
  {
    AcceptedExactly(req.nonceText);
    hide NormalizeNonce, Usable, Canonical, FromHex, DecodeBlob;
  }

  lemma VerifyReportFindsFault(p: Platform, req: Request, c: Choice)
    requires AtFault(req) && req.phase.TdxVerify? && SmoothStep(p, c, false)
    ensures FaultNearer(req, VerifyReport(p, req, c))
  {
    hide FromHex, DecodeBlob, Usable;
  }

  lemma DecodeFindsFault(p: Platform, l: Local, c: Choice)
    requires AtFault(l.req) && l.req.phase.Decode? && SmoothStep(p, c, false)
    ensures FaultNearer(l.req, LocalStep(p, l, c).req)
  {
    FaultyBlob(p, l, c);
    VerificationIsVerify(p, l, c);
    DecodeRefuses(p, l, c);
    hide LocalStep, RefusalOf;
    VerifyKeepsKind(p, l, c);
    hide VerifyStep;
    ToldAtDecode(l.req, LocalStep(p, l, c).req);
  }

  lemma FaultyBlob(p: Platform, l: Local, c: Choice)
    requires AtFault(l.req) && l.req.phase.Decode?
    ensures RefusalOf(p, l, c) == Some(InvalidInput) && l.req.kind.VerifyAll?
  {
    hide FromHex, DecodeBlob, Issue, DigestOf, Usable;
  }

  lemma VerifyKeepsKind(p: Platform, l: Local, c: Choice)
    requires l.req.kind.VerifyAll?
    ensures SameRequest(l.req, VerifyStep(p, l, c).req)
  {
    hide DecodeBlob, CheckFiles;
  }

  lemma ToldAtDecode(req: Request, req': Request)
    requires AtFault(req) && req.phase.Decode? && SameRequest(req, req')
    requires req'.phase == DropScratch(Refused(InvalidInput))
    ensures FaultNearer(req, req')
  {
    hide FromHex, DecodeBlob, Usable;
  }

  lemma PhaseOfFault(req: Request)
    requires AtFault(req)
    ensures IsLocal(req.phase) <==> req.phase.Decode?
    ensures || req.phase.Arrived? || req.phase.TdxVerify? || req.phase.NewScratch? || req.phase.Decode?
            || req.phase.DropScratch? || req.phase.Finished?
    ensures !req.phase.Arrived? && !req.phase.Finished? ==> req.kind.VerifyAll?
  {
    hide Malformed, FromHex;
  }

  lemma FaultGoesOn(req: Request, req': Request)
    requires AtFault(req) && req' == req.(phase := req'.phase, vars := req'.vars)
    requires || (req.phase.NewScratch? && req'.phase.Decode?)
             || (req.phase.DropScratch? && req'.phase == Finished(req.phase.outcome))
    ensures FaultNearer(req, req')
  {
    hide FromHex, DecodeBlob, Usable;
  }

  lemma TurnFindsFault(p: Platform, s: State, i: nat, c: Choice)
    requires i < |s.requests| && AtFault(s.requests[i]) && !s.requests[i].phase.Finished? && SmoothStep(p, c, false)
    ensures
      var s' := Next(p, s, Turn(i, c));
      i < |s'.requests| && FaultNearer(s.requests[i], s'.requests[i])
  {
    var req, req' := s.requests[i], Next(p, s, Turn(i, c)).requests[i];
    hide LocalStep, Enter, VerifyReport, AtFault, FaultNearer, IsLocal;
    PhaseOfFault(req);
    match req.phase {
      case Arrived => EnterFindsFault(p, req, c);
      case TdxVerify => VerifyReportFindsFault(p, req, c);
      case Decode => DecodeFindsFault(p, Local(s.tpm, s.cachedPem, DirectoryOf(s, req), req), c);
      case _ => FaultGoesOn(req, req');
    }
  }

  lemma ActionFindsFault(p: Platform, s: State, i: nat, a: Action)
    requires i < |s.requests| && AtFault(s.requests[i]) && (Own(a, i) ==> SmoothStep(p, a.choice, false))
    ensures
      var s' := Next(p, s, a);
      && i < |s'.requests| && AtFault(s'.requests[i]) && StepsLeft(s'.requests[i]) <= StepsLeft(s.requests[i])
      && (Own(a, i) && StepsLeft(s.requests[i]) > 0 ==> StepsLeft(s'.requests[i]) < StepsLeft(s.requests[i]))
  {
    hide TakeTurn, AtFault, SmoothStep;
    if Own(a, i) {
      if s.requests[i].phase.Finished? {
        IdleTurn(p, s, i, a.choice);
      } else {
        TurnFindsFault(p, s, i, a.choice);
      }
    } else if a.Turn? && a.id < |s.requests| {
      OthersStay(p, s, a.id, a.choice);
    }
  }

  lemma ToldInTheEnd(req: Request)
    requires AtFault(req) && StepsLeft(req) == 0
    ensures req.phase == Finished(Refused(InvalidInput))
  {
    hide Malformed, FromHex;
  }

  lemma {:induction false} FaultIsTold(p: Platform, s: State, i: nat, actions: seq<Action>)
    requires i < |s.requests| && AtFault(s.requests[i])
    requires SmoothTurns(p, actions, i, false) && OwnTurns(actions, i) >= StepsLeft(s.requests[i])
    ensures i < |Run(p, s, actions).requests|
    ensures Run(p, s, actions).requests[i].phase == Finished(Refused(InvalidInput))
    decreases |actions|
  {
    if actions == [] {
      ToldInTheEnd(s.requests[i]);
    } else {
      hide Next, AtFault, StepsLeft, SmoothTurns, SmoothStep;
      SmoothRest(p, actions, i, false);
      ActionFindsFault(p, s, i, actions[0]);
      FaultIsTold(p, Next(p, s, actions[0]), i, actions[1..]);
    }
  }

  /**
   * A malformed request - unusable challenge, missing or malformed report, undecodable blob - is refused with
   * `InvalidInput` in every continuation that gives it ten turns at which nothing else goes wrong.
   */
  lemma MalformedIsRefused(p: Platform, s: State, i: nat, actions: seq<Action>)
    requires i < |s.requests| && s.requests[i].phase.Arrived? && Malformed(s.requests[i])
    requires SmoothTurns(p, actions, i, false) && OwnTurns(actions, i) >= 10
    ensures i < |Run(p, s, actions).requests|
    ensures Run(p, s, actions).requests[i].phase == Finished(Refused(InvalidInput))
  {
    assert AtFault(s.requests[i]) && StepsLeft(s.requests[i]) == 10 by {
      hide Malformed, FromHex;
    }
    hide AtFault, Malformed, SmoothTurns, Run;
    FaultIsTold(p, s, i, actions);
  }
}
