/** The public key of a reply is best effort: what is missing once the rest is there never costs the answer. */
module BestEffort {
  import opened Wrappers
  import opened Text
  import opened Codec
  import opened Nonce
  import opened Tpm
  import opened Service
  import opened Safety
  import opened Guarantees
  import opened Progress
  import opened Release
  import opened Refusals
  import opened Schedules
  import Tdx

  /** What a reply of the kind cannot do without has been obtained. */
  predicate Achieved(req: Request) {
    match req.kind
    case InformationTpm => req.vars.pcrValue != ""
    case QuoteTpm => req.vars.tpmEvidence != NO_EVIDENCE
    case AttestationAll => req.vars.tdxEvidence.Some?
    case VerifyAll(_) => false
  }

  /** Only the key is still to be seen to. */
  predicate KeyStage(req: Request) {
    var r := Rank(req.phase);
    !req.kind.VerifyAll? && ((req.kind.InformationTpm? && 8 <= r <= 15) || 20 <= r <= 24)
  }

  /** Once everything else is there the request is not refused any more, and it is not answered before. */
  predicate Steady(req: Request) {
    && (Achieved(req) ==> KeyStage(req) || (OutcomeOf(req.phase).Some? && !OutcomeOf(req.phase).value.Refused?))
    && (KeyStage(req) ==> Achieved(req))
    && (OutcomeOf(req.phase).Some? && OutcomeOf(req.phase).value.Replied? && !req.kind.VerifyAll? ==> Achieved(req))
  }

  // ----- every step keeps requests steady -----

  lemma CommandLeavesVars(req: Request, fate: Fate, akPresent: bool)
    requires IsCommand(req.phase)
    ensures
      var req' := AfterCommand(req, fate, akPresent);
      req'.kind == req.kind && req'.vars == req.vars.(pem := req'.vars.pem)
  {
  }

  lemma KeyCommandStays(req: Request, fate: Fate, akPresent: bool)
    requires IsCommand(req.phase) && KeyStage(req)
    ensures
      var req' := AfterCommand(req, fate, akPresent);
      KeyStage(req') || (fate.Crashed? && req'.phase == DropScratch(Panicked))
  {
  }

  lemma EarlyCommandStays(req: Request, fate: Fate, akPresent: bool)
    requires IsCommand(req.phase) && !req.kind.VerifyAll? && !KeyStage(req)
    ensures
      var req' := AfterCommand(req, fate, akPresent);
      !KeyStage(req') && (OutcomeOf(req'.phase).Some? ==> !OutcomeOf(req'.phase).value.Replied?)
  {
  }

  lemma CommandIsSteady(p: Platform, l: Local, c: Choice)
    requires IsCommand(l.req.phase) && !l.req.kind.VerifyAll? && Steady(l.req)
    ensures Steady(CommandStep(p, l, c).req)
  {
    var (tpm, dir, fate) := Issue(p, l.tpm, l.dir, CommandOf(p, l.req), c);
    CommandLeavesVars(Counted(l.req), fate, p.akHandle in tpm.keys);
    if KeyStage(Counted(l.req)) {
      KeyCommandStays(Counted(l.req), fate, p.akHandle in tpm.keys);
    } else {
      EarlyCommandStays(Counted(l.req), fate, p.akHandle in tpm.keys);
    }
    hide Issue, CommandOf, AfterCommand, IsCommand;
    CommandIsNoEnd(l.req);
    hide Rank;
  }

  lemma CommandIsNoEnd(req: Request)
    requires IsCommand(req.phase)
    ensures OutcomeOf(req.phase).None?
  {
  }

  lemma PcrFileIsSteady(l: Local, c: Choice)
    requires l.req.phase.PcrFile? && Steady(l.req)
    ensures Steady(PcrFileStep(l, c).req)
  {
  }

  lemma QuoteIsSteady(p: Platform, l: Local)
    requires l.req.phase.Blobs? && Steady(l.req) && !l.req.kind.InformationTpm?
    ensures Steady(ReadQuote(l.req, l.dir))
  {
    hide NormalizeNonce, EncodeBlob, JoinQuote, Lower, ReadFile;
  }

  lemma ReportIsSteady(p: Platform, l: Local, access: Tdx.Access)
    requires l.req.phase.TdxReport? && Steady(l.req) && l.req.kind.AttestationAll?
    ensures Steady(AttachReport(p, l.req, access))
  {
    hide FromHex, ToHex, Tdx.Generated;
  }

  lemma LocalIsSteady(p: Platform, l: Local, c: Choice)
    requires IsLocal(l.req.phase) && !l.req.kind.VerifyAll? && Steady(l.req) && Rank(l.req.phase) > 1
    requires l.req.phase.Blobs? ==> !l.req.kind.InformationTpm?
    requires l.req.phase.TdxReport? ==> l.req.kind.AttestationAll?
    ensures Steady(LocalStep(p, l, c).req)
  {
    hide CommandStep, ReadQuote, AttachReport, DigestOf, ReplyOf, ReadFile, PcrFileStep;
    if IsCommand(l.req.phase) {
      CommandIsSteady(p, l, c);
    } else if l.req.phase.PcrFile? {
      PcrFileIsSteady(l, c);
    } else if l.req.phase.Blobs? {
      QuoteIsSteady(p, l);
    } else if l.req.phase.TdxReport? {
      ReportIsSteady(p, l, c.access);
    }
  }

  lemma EvidenceKind(p: Platform, l: Local)
    requires EvidenceOk(p, l.tpm, l.dir, l.req)
    ensures l.req.phase.Blobs? ==> !l.req.kind.InformationTpm?
    ensures l.req.phase.TdxReport? ==> l.req.kind.AttestationAll?
  {
  }

  lemma VerificationIsSteady(req: Request)
    requires req.kind.VerifyAll?
    ensures Steady(req)
  {
  }

  lemma LocalTurnIsSteady(p: Platform, s: State, i: nat, c: Choice)
    requires Ideal(p) && Inv(p, s) && i < |s.requests| && Steady(s.requests[i]) && IsLocal(s.requests[i].phase)
    ensures Steady(LocalTurn(p, s, i, c).requests[i])
  {
    var l := View(s, i);
    LocalIsInside(l.req);
    assert RequestOk(p, l);
    LocalKeeps(p, l, c);
    hide RequestOk, LocalStep, Steady, EvidenceOk, Rank;
    if l.req.kind.VerifyAll? {
      VerificationIsSteady(LocalStep(p, l, c).req);
    } else {
      InTransaction(p, l);
      EvidenceKind(p, l);
      LocalIsSteady(p, l, c);
    }
  }

  lemma EnterIsSteady(p: Platform, req: Request, c: Choice)
    requires req.phase.Arrived? && Steady(req)
    ensures Steady(Enter(p, req, c))
  {
    hide NormalizeNonce;
  }

  lemma VerifyReportIsSteady(p: Platform, req: Request, c: Choice)
    requires req.kind.VerifyAll?
    ensures Steady(VerifyReport(p, req, c))
  {
    hide FromHex;
  }

  lemma ScratchIsSteady(s: State, i: nat, c: Choice)
    requires i < |s.requests| && s.requests[i].phase.NewScratch? && Steady(s.requests[i])
    ensures Steady(ScratchTurn(s, i, c).requests[i])
  {
  }

  lemma LeaveIsSteady(req: Request, req': Request)
    requires Steady(req) && OutcomeOf(req'.phase) == OutcomeOf(req.phase) && OutcomeOf(req.phase).Some?
    requires req' == req.(phase := req'.phase)
    ensures Steady(req')
  {
  }

  lemma LockIsSteady(req: Request, tally: Tally)
    requires Steady(req) && req.phase.WaitingForLock?
    ensures Steady(req.(phase := NewScratch, tally := tally))
  {
  }

  lemma OtherTurnIsSteady(p: Platform, s: State, i: nat, c: Choice)
    requires i < |s.requests| && Steady(s.requests[i]) && !IsLocal(s.requests[i].phase)
    ensures Steady(TakeTurn(p, s, i, c).requests[i])
  {
    var req, req' := s.requests[i], TakeTurn(p, s, i, c).requests[i];
    hide LocalTurn, Enter, VerifyReport, ScratchTurn, Steady;
    match req.phase {
      case Arrived => EnterIsSteady(p, req, c);
      case TdxVerify => if req.kind.VerifyAll? { VerifyReportIsSteady(p, req, c); }
      case WaitingForLock => LockIsSteady(req, req'.tally);
      case NewScratch => ScratchIsSteady(s, i, c);
      case DropScratch(_) => LeaveIsSteady(req, req');
      case Unlock(_) => LeaveIsSteady(req, req');
      case _ =>
    }
  }

  lemma NextIsSteady(p: Platform, s: State, a: Action)
    requires Ideal(p) && Inv(p, s) && forall i | 0 <= i < |s.requests| :: Steady(s.requests[i])
    ensures forall i | 0 <= i < |Next(p, s, a).requests| :: Steady(Next(p, s, a).requests[i])
  {
    if a.Turn? && a.id < |s.requests| {
      OthersStay(p, s, a.id, a.choice);
      if IsLocal(s.requests[a.id].phase) {
        LocalTurnIsSteady(p, s, a.id, a.choice);
      } else {
        OtherTurnIsSteady(p, s, a.id, a.choice);
      }
      hide Inv, Steady, TakeTurn;
    } else {
      hide Inv;
    }
  }

  lemma {:induction false} RunIsSteady(p: Platform, s: State, actions: seq<Action>)
    requires Ideal(p) && Inv(p, s) && s.scratchCounter + |actions| <= SCRATCH_IDS
    requires forall i | 0 <= i < |s.requests| :: Steady(s.requests[i])
    ensures forall i | 0 <= i < |Run(p, s, actions).requests| :: Steady(Run(p, s, actions).requests[i])
    decreases |actions|
  {
    hide Inv, Next, Steady, Ideal;
    if actions != [] {
      NextKeeps(p, s, actions[0]);
      NextIsSteady(p, s, actions[0]);
      RunIsSteady(p, Next(p, s, actions[0]), actions[1..]);
    }
  }

  lemma ReachableIsSteady(p: Platform, s: State, i: nat)
    requires Ideal(p) && Reachable(p, s) && i < |s.requests|
    ensures Steady(s.requests[i])
  {
    hide Inv, Run, Ideal, Steady;
    var s0, actions :| Initial(s0) && |actions| < SCRATCH_IDS && s == Run(p, s0, actions);
    InitialOk(p, s0);
    RunIsSteady(p, s0, actions);
  }

  /**
   * A measuring request that did not panic is answered exactly if it got what a reply cannot do without:
   * `/information_tpm` its PCR value, `/quote_tpm` its quote, `/attestation_all` its report.
   */
  lemma AnsweredExactly(p: Platform, s: State, i: nat, outcome: Outcome)
    requires Ideal(p) && Reachable(p, s) && i < |s.requests| && !s.requests[i].kind.VerifyAll?
    requires s.requests[i].phase == Finished(outcome) && !outcome.Panicked?
    ensures outcome.Replied? <==> Achieved(s.requests[i])
  {
    ReachableIsSteady(p, s, i);
    hide Achieved;
  }

  // ----- what becomes of the key -----

  /** A turn at which the key is lost: a command that deals with it fails, or its file cannot be read. */
  predicate KeyFails(p: Platform, s: State, i: nat, c: Choice) {
    && i < |s.requests|
    && var (req, dir) := (s.requests[i], DirectoryOf(s, s.requests[i]));
    || ((req.phase.GetCap? || req.phase.MakeEk? || req.phase.MakeAk? || req.phase.PersistAk? || req.phase.ReadAk?)
        && !Issue(p, s.tpm, dir, CommandOf(p, req), c).2.Success?)
    || (req.phase.PemFile? && !(c.succeeds && AkPem in dir && dir[AkPem].Pem?))
  }

  /** One of the turns of request `i` is such a turn. */
  predicate KeyLost(p: Platform, s: State, actions: seq<Action>, i: nat)
    decreases |actions|
  {
    actions != []
    && ((Own(actions[0], i) && KeyFails(p, s, i, actions[0].choice))
        || KeyLost(p, Next(p, s, actions[0]), actions[1..], i))
  }

  /** The request is to be answered, or has been. */
  predicate Surviving(req: Request) {
    !req.kind.VerifyAll? && (KeyStage(req) || (OutcomeOf(req.phase).Some? && OutcomeOf(req.phase).value.Replied?))
  }

  /** Whether there is a key, once that is known. */
  function KeyKnown(req: Request): Option<bool> {
    if req.phase.Assemble? then Some(req.vars.pem.Some?)
    else
      match OutcomeOf(req.phase)
      case Some(Replied(reply)) => Some(HasKey(reply))
      case _ => None
  }

  predicate KeyStep(req: Request, fails: bool, req': Request) {
    && Surviving(req') && Distance(req') < Distance(req) && req'.kind == req.kind
    && KeyKnown(req') == if KeyKnown(req).Some? then KeyKnown(req)
                         else if fails then Some(false)
                         else if req'.phase.Assemble? then Some(true) else None
  }

  lemma EnsureFlushLeads(req: Request, fate: Fate, akPresent: bool)
    requires IsFlush(req.phase) && Rank(req.phase) <= 15 && KeyStage(req) && !fate.Crashed?
    ensures KeyStep(req, false, AfterCommand(Counted(req), fate, akPresent))
  {
  }

  lemma EnsureCommandLeads(req: Request, fate: Fate, akPresent: bool)
    requires IsCommand(req.phase) && !IsFlush(req.phase) && Rank(req.phase) <= 15 && KeyStage(req) && !fate.Crashed?
    ensures KeyStep(req, !fate.Success?, AfterCommand(Counted(req), fate, akPresent))
  {
  }

  lemma PublicCommandLeads(req: Request, fate: Fate, akPresent: bool)
    requires req.phase.FlushPublic? || req.phase.ReadAk?
    requires KeyStage(req) && !fate.Crashed?
    ensures KeyStep(req, !IsFlush(req.phase) && !fate.Success?, AfterCommand(Counted(req), fate, akPresent))
  {
  }

  lemma KeyCommandLeads(req: Request, fate: Fate, akPresent: bool)
    requires IsCommand(req.phase) && KeyStage(req) && !fate.Crashed?
    ensures KeyStep(req, !IsFlush(req.phase) && !fate.Success?, AfterCommand(Counted(req), fate, akPresent))
  {
    hide AfterCommand, KeyStep;
    if Rank(req.phase) <= 15 {
      if IsFlush(req.phase) {
        EnsureFlushLeads(req, fate, akPresent);
      } else {
        EnsureCommandLeads(req, fate, akPresent);
      }
    } else {
      PublicCommandLeads(req, fate, akPresent);
    }
  }

  /** The key cannot be read from its file. */
  predicate FileFails(l: Local, c: Choice) {
    l.req.phase.PemFile? && !(c.succeeds && AkPem in l.dir && l.dir[AkPem].Pem?)
  }

  lemma FailsAtCommand(p: Platform, s: State, i: nat, c: Choice)
    requires i < |s.requests| && IsCommand(s.requests[i].phase) && KeyStage(s.requests[i])
    ensures
      var req := s.requests[i];
      KeyFails(p, s, i, c) <==>
      !IsFlush(req.phase) && !Issue(p, s.tpm, DirectoryOf(s, req), CommandOf(p, req), c).2.Success?
  {
    hide Issue, CommandOf;
  }

  lemma FailsAtFile(p: Platform, s: State, i: nat, c: Choice)
    requires i < |s.requests| && !IsCommand(s.requests[i].phase) && HasScratch(s.requests[i])
    ensures KeyFails(p, s, i, c) <==> FileFails(View(s, i), c)
  {
    hide Issue, CommandOf;
  }

  lemma KeyCommandStep(p: Platform, l: Local, c: Choice)
    requires IsCommand(l.req.phase) && KeyStage(l.req) && !c.panics
    ensures KeyStep(l.req, !IsFlush(l.req.phase) && !Issue(p, l.tpm, l.dir, CommandOf(p, l.req), c).2.Success?,
                    CommandStep(p, l, c).req)
  {
    var (tpm, dir, fate) := Issue(p, l.tpm, l.dir, CommandOf(p, l.req), c);
    assert !fate.Crashed?;
    KeyCommandLeads(l.req, fate, p.akHandle in tpm.keys);
    hide Issue, CommandOf, AfterCommand, KeyStep, KeyStage, IsCommand;
  }

  lemma KeyLocalStep(p: Platform, s: State, i: nat, c: Choice)
    requires Ideal(p) && Inv(p, s) && i < |s.requests| && IsLocal(s.requests[i].phase) && Surviving(s.requests[i])
    requires !c.panics
    ensures KeyStep(s.requests[i], KeyFails(p, s, i, c), LocalTurn(p, s, i, c).requests[i])
  {
    var l := View(s, i);
    LocalIsInside(l.req);
    LocalIsNoEnd(l.req);
    assert RequestOk(p, l);
    hide Inv, Ideal, KeyStep, KeyStage, KeyFails, RequestOk, IsCommand, IsLocal, HasScratch, CommandStep;
    if IsCommand(l.req.phase) {
      FailsAtCommand(p, s, i, c);
      KeyCommandStep(p, l, c);
    } else {
      FailsAtFile(p, s, i, c);
      hide LocalStep;
      KeyFileStep(p, l, c);
    }
  }

  lemma LocalIsNoEnd(req: Request)
    requires IsLocal(req.phase)
    ensures OutcomeOf(req.phase).None?
  {
  }

  lemma KeyFileStep(p: Platform, l: Local, c: Choice)
    requires Ideal(p) && RequestOk(p, l)
    requires IsLocal(l.req.phase) && !IsCommand(l.req.phase) && KeyStage(l.req) && !c.panics
    ensures KeyStep(l.req, FileFails(l, c), LocalStep(p, l, c).req)
  {
    hide Ideal, RequestOk, KeyStep, CacheStep, PemStep, ReplyOf, FileFails;
    NoFileFails(l, c);
    if l.req.phase.Assemble? {
      InTransaction(p, l);
      AssembleLeads(p, l);
    } else if l.req.phase.AkCache? {
      CacheStepLeads(l);
    } else if l.req.phase.PemFile? {
      PemStepLeads(l, c);
    }
  }

  lemma NoFileFails(l: Local, c: Choice)
    ensures FileFails(l, c) ==> l.req.phase.PemFile?
  {
  }

  lemma AssembleLeads(p: Platform, l: Local)
    requires Ideal(p) && l.req.phase.Assemble? && TransactionOk(p, l) && KeyStage(l.req)
    ensures KeyStep(l.req, false, l.req.(phase := DropScratch(Replied(ReplyOf(l.req)))))
  {
    AssembledKey(p, l);
    hide Ideal, TransactionOk, ReplyOf, HasKey;
    AssembledStep(l.req, ReplyOf(l.req));
  }

  lemma AssembledStep(req: Request, reply: Reply)
    requires KeyStage(req) && req.phase.Assemble? && (HasKey(reply) <==> req.vars.pem.Some?)
    ensures KeyStep(req, false, req.(phase := DropScratch(Replied(reply))))
  {
    hide HasKey;
  }

  lemma CacheStepLeads(l: Local)
    requires l.req.phase.AkCache? && KeyStage(l.req)
    ensures KeyStep(l.req, false, CacheStep(l).req)
  {
  }

  lemma PemStepLeads(l: Local, c: Choice)
    requires l.req.phase.PemFile? && KeyStage(l.req)
    ensures KeyStep(l.req, FileFails(l, c), PemStep(l, c).req)
  {
  }

  /** The assembled reply shows a key exactly if there is one. */
  lemma AssembledKey(p: Platform, l: Local)
    requires Ideal(p) && l.req.phase.Assemble? && TransactionOk(p, l)
    ensures HasKey(ReplyOf(l.req)) <==> l.req.vars.pem.Some?
  {
    hide PcrOk, EvidenceOk, CountOk;
  }

  lemma KeyTurn(p: Platform, s: State, i: nat, c: Choice)
    requires Ideal(p) && Inv(p, s) && i < |s.requests| && Surviving(s.requests[i]) && !c.panics
    requires !s.requests[i].phase.Finished?
    ensures
      var s' := Next(p, s, Turn(i, c));
      i < |s'.requests| && KeyStep(s.requests[i], KeyFails(p, s, i, c), s'.requests[i])
  {
    var req := s.requests[i];
    if IsLocal(req.phase) {
      KeyLocalStep(p, s, i, c);
      hide Inv, Ideal, LocalTurn, KeyFails, KeyStep;
    } else {
      hide Inv, Ideal, LocalTurn, HasKey, Issue;
    }
  }

  ghost predicate NoPanics(actions: seq<Action>, i: nat) {
    forall k | 0 <= k < |actions| && Own(actions[k], i) :: !actions[k].choice.panics
  }

  lemma NoPanicsRest(actions: seq<Action>, i: nat)
    requires actions != [] && NoPanics(actions, i)
    ensures NoPanics(actions[1..], i) && (Own(actions[0], i) ==> !actions[0].choice.panics)
  {
    assert forall k | 0 <= k < |actions| - 1 :: actions[1..][k] == actions[k + 1];
  }

  lemma KnownAtTheEnd(req: Request)
    requires Surviving(req) && Distance(req) == 0
    ensures req.phase.Finished? && req.phase.outcome.Replied?
    ensures KeyKnown(req) == Some(HasKey(req.phase.outcome.reply))
  {
    hide HasKey;
  }

  /** One action of any request. */
  lemma KeyAction(p: Platform, s: State, i: nat, a: Action)
    requires Ideal(p) && Inv(p, s) && s.scratchCounter < SCRATCH_IDS
    requires i < |s.requests| && Surviving(s.requests[i]) && (Own(a, i) ==> !a.choice.panics)
    ensures
      var s' := Next(p, s, a);
      && i < |s'.requests|
      && var (req, req', fails) := (s.requests[i], s'.requests[i], Own(a, i) && KeyFails(p, s, i, a.choice));
      && Surviving(req') && req'.kind == req.kind && Distance(req') <= Distance(req)
      && (Own(a, i) && Distance(req) > 0 ==> Distance(req') < Distance(req))
      && (KeyKnown(req).Some? ==> KeyKnown(req') == KeyKnown(req))
      && (KeyKnown(req).None? ==> if fails then KeyKnown(req') == Some(false) else KeyKnown(req') != Some(false))
  {
    hide Inv, Ideal, Next, Surviving, KeyKnown, Distance, KeyFails;
    if !Own(a, i) {
      OthersLeaveTheView(p, s, i, a);
      UnknownIsNotLost(s.requests[i]);
    } else if s.requests[i].phase.Finished? {
      IdleTurn(p, s, i, a.choice);
      FinishedIsFar(p, s, i, a.choice);
    } else {
      KeyTurn(p, s, i, a.choice);
    }
  }

  lemma UnknownIsNotLost(req: Request)
    ensures KeyKnown(req).None? ==> KeyKnown(req) != Some(false)
  {
  }

  lemma FinishedIsFar(p: Platform, s: State, i: nat, c: Choice)
    requires i < |s.requests| && s.requests[i].phase.Finished? && Surviving(s.requests[i])
    ensures Distance(s.requests[i]) == 0 && KeyKnown(s.requests[i]).Some?
  {
    hide HasKey;
  }

  /** What there will be of the key after these actions. */
  predicate KeyComes(p: Platform, s: State, actions: seq<Action>, i: nat)
    requires i < |s.requests|
  {
    if KeyKnown(s.requests[i]).Some? then KeyKnown(s.requests[i]).value else !KeyLost(p, s, actions, i)
  }

  lemma KnownDoesNotFail(p: Platform, s: State, i: nat, c: Choice)
    requires i < |s.requests| && KeyKnown(s.requests[i]).Some?
    ensures !KeyFails(p, s, i, c)
  {
    hide Issue, HasKey;
  }

  /** Once it is known whether there is a key, none is lost. */
  lemma {:induction false} KnownIsNotLost(p: Platform, s: State, actions: seq<Action>, i: nat)
    requires Ideal(p) && Inv(p, s) && s.scratchCounter + |actions| <= SCRATCH_IDS
    requires i < |s.requests| && Surviving(s.requests[i]) && KeyKnown(s.requests[i]).Some? && NoPanics(actions, i)
    ensures !KeyLost(p, s, actions, i)
    decreases |actions|
  {
    hide Inv, Ideal, Next, Surviving, KeyKnown, Distance, KeyFails, NoPanics;
    if actions != [] {
      NoPanicsRest(actions, i);
      if Own(actions[0], i) {
        KnownDoesNotFail(p, s, i, actions[0].choice);
      }
      KeyAction(p, s, i, actions[0]);
      NextKeeps(p, s, actions[0]);
      KnownIsNotLost(p, Next(p, s, actions[0]), actions[1..], i);
    }
  }

  lemma KeyComesStep(p: Platform, s: State, actions: seq<Action>, i: nat)
    requires Ideal(p) && Inv(p, s) && s.scratchCounter + |actions| <= SCRATCH_IDS && actions != []
    requires i < |s.requests| && Surviving(s.requests[i]) && NoPanics(actions, i)
    ensures i < |Next(p, s, actions[0]).requests|
    ensures KeyComes(p, s, actions, i) <==> KeyComes(p, Next(p, s, actions[0]), actions[1..], i)
  {
    hide Inv, Ideal, Next, Surviving, KeyKnown, Distance, KeyFails, NoPanics;
    NoPanicsRest(actions, i);
    KeyAction(p, s, i, actions[0]);
    NextKeeps(p, s, actions[0]);
    var s' := Next(p, s, actions[0]);
    if KeyKnown(s'.requests[i]).Some? {
      KnownIsNotLost(p, s', actions[1..], i);
    }
  }

  /**
   * In every continuation that gives it enough turns without a panic, a request of which only the key is
   * missing is answered, whatever becomes of the commands and files that deal with the key; and the reply
   * is without a key exactly if one of these failed.
   */
  lemma {:induction false} KeyIsOptional(p: Platform, s: State, i: nat, actions: seq<Action>) returns (reply: Reply)
    requires Ideal(p) && Inv(p, s) && s.scratchCounter + |actions| <= SCRATCH_IDS
    requires i < |s.requests| && Surviving(s.requests[i])
    requires NoPanics(actions, i) && OwnTurns(actions, i) >= Distance(s.requests[i])
    ensures Answered(Run(p, s, actions), i, reply) && Run(p, s, actions).requests[i].kind == s.requests[i].kind
    ensures HasKey(reply) <==> KeyComes(p, s, actions, i)
    decreases |actions|
  {
    if actions == [] {
      KnownAtTheEnd(s.requests[i]);
      reply := s.requests[i].phase.outcome.reply;
    } else {
      hide Inv, Ideal, Next, Surviving, KeyComes, Distance, KeyFails, HasKey, NoPanics, KeyKnown;
      NoPanicsRest(actions, i);
      NextKeeps(p, s, actions[0]);
      KeyComesStep(p, s, actions, i);
      KeyAction(p, s, i, actions[0]);
      reply := KeyIsOptional(p, Next(p, s, actions[0]), i, actions[1..]);
    }
  }

  lemma AchievedSurvives(req: Request)
    requires Steady(req) && Achieved(req) && OutcomeOf(req.phase) != Some(Panicked)
    ensures Surviving(req) && Distance(req) <= 22
  {
  }

  /**
   * From every reachable state: a request that has what a reply cannot do without, and has not panicked,
   * is answered in every continuation that gives it 22 turns without a panic, whatever fails at them. As
   * long as nothing is known of the key, it is answered without one exactly if a key step fails on the way.
   */
  lemma AnsweredAnyway(p: Platform, s: State, i: nat, actions: seq<Action>) returns (reply: Reply)
    requires Ideal(p) && Reachable(p, s) && s.scratchCounter + |actions| <= SCRATCH_IDS
    requires i < |s.requests| && Achieved(s.requests[i]) && OutcomeOf(s.requests[i].phase) != Some(Panicked)
    requires NoPanics(actions, i) && OwnTurns(actions, i) >= 22
    ensures Answered(Run(p, s, actions), i, reply)
    ensures KeyKnown(s.requests[i]).None? ==> (HasKey(reply) <==> !KeyLost(p, s, actions, i))
  {
    hide Ideal, Reachable, Run, Inv, KeyKnown, Distance, KeyLost, HasKey, NoPanics, Steady, Surviving, Achieved;
    ReachableOk(p, s);
    ReachableIsSteady(p, s, i);
    AchievedSurvives(s.requests[i]);
    reply := KeyIsOptional(p, s, i, actions);
  }
}
