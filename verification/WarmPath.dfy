/** The warm path: an answer with a key fills the cache, and from then on attestations run seven commands. */
module WarmPath {
  import opened Wrappers
  import opened Text
  import opened Codec
  import opened Nonce
  import opened Tpm
  import opened Service
  import opened Safety
  import opened Guarantees
  import opened Progress
  import opened Release
  import opened Refusals
  import opened Schedules
  import Tdx

  /** The request has a key to show, or has shown it. */
  predicate KeyShown(req: Request) {
    || (req.phase.Assemble? && req.vars.pem.Some?)
    || match OutcomeOf(req.phase)
       case Some(Replied(reply)) => HasKey(reply)
       case _ => false
  }

  predicate CacheFilled(s: State) {
    forall i | 0 <= i < |s.requests| :: KeyShown(s.requests[i]) ==> s.cachedPem.Some?
  }

  lemma CommandShowsNoKey(req: Request, fate: Fate, akPresent: bool)
    requires IsCommand(req.phase)
    ensures !KeyShown(AfterCommand(req, fate, akPresent))
  {
  }

  lemma AssembledShows(req: Request)
    ensures HasKey(ReplyOf(req)) ==> req.vars.pem.Some?
  {
  }

  lemma VerdictShowsNoKey(p: Platform, l: Local, c: Choice)
    requires l.req.kind.VerifyAll?
    ensures !KeyShown(VerifyStep(p, l, c).req) || VerifyStep(p, l, c).req == l.req
    ensures VerifyStep(p, l, c).cachedPem == l.cachedPem
  {
    hide DecodeBlob, CheckFiles;
  }

  lemma QuoteShowsNoKey(req: Request, dir: Directory)
    ensures !KeyShown(ReadQuote(req, dir))
  {
    hide NormalizeNonce, EncodeBlob, JoinQuote, ReadFile, Lower;
  }

  lemma ReportShowsNoKey(p: Platform, req: Request, access: Tdx.Access)
    ensures !KeyShown(AttachReport(p, req, access))
  {
    hide FromHex, Tdx.Generated, ToHex;
  }

  /** A step never empties the cache, and a key is shown only with the cache filled. */
  lemma LocalStepFills(p: Platform, l: Local, c: Choice)
    requires IsLocal(l.req.phase) && (KeyShown(l.req) ==> l.cachedPem.Some?)
    ensures
      var l' := LocalStep(p, l, c);
      (l.cachedPem.Some? ==> l'.cachedPem.Some?) && (KeyShown(l'.req) ==> l'.cachedPem.Some?)
  {
    hide AfterCommand, Issue, CommandOf, ReadQuote, AttachReport, ReplyOf, HasKey, DigestOf, ReadFile, VerifyStep;
    if IsCommand(l.req.phase) {
      var (tpm, dir, fate) := Issue(p, l.tpm, l.dir, CommandOf(p, l.req), c);
      CommandShowsNoKey(Counted(l.req), fate, p.akHandle in tpm.keys);
      hide KeyShown, IsCommand;
    } else {
      QuoteShowsNoKey(l.req, l.dir);
      ReportShowsNoKey(p, l.req, c.access);
      AssembledShows(l.req);
      if l.req.kind.VerifyAll? {
        VerdictShowsNoKey(p, l, c);
      }
    }
  }

  lemma LocalTurnFills(p: Platform, s: State, i: nat, c: Choice)
    requires i < |s.requests| && CacheFilled(s) && IsLocal(s.requests[i].phase)
    ensures CacheFilled(LocalTurn(p, s, i, c)) && (s.cachedPem.Some? ==> LocalTurn(p, s, i, c).cachedPem.Some?)
  {
    hide KeyShown, LocalStep, IsLocal;
    var l := Local(s.tpm, s.cachedPem, DirectoryOf(s, s.requests[i]), s.requests[i]);
    LocalStepFills(p, l, c);
  }

  lemma OutsideShows(req: Request, req': Request)
    requires req'.phase.WaitingForLock? || req'.phase.TdxVerify? || req'.phase.NewScratch? || req'.phase.Decode?
             || req'.phase.Measure? || (OutcomeOf(req'.phase).Some? && !OutcomeOf(req'.phase).value.Replied?)
             || (OutcomeOf(req'.phase).Some? && OutcomeOf(req'.phase) == OutcomeOf(req.phase))
    ensures KeyShown(req') ==> KeyShown(req)
  {
  }

  lemma EnterShows(p: Platform, req: Request, c: Choice)
    requires req.phase.Arrived?
    ensures KeyShown(Enter(p, req, c)) ==> KeyShown(req)
  {
    OutsideShows(req, Enter(p, req, c));
    hide NormalizeNonce, KeyShown;
  }

  lemma VerifyReportShows(p: Platform, req: Request, c: Choice)
    requires req.kind.VerifyAll?
    ensures KeyShown(VerifyReport(p, req, c)) ==> KeyShown(req)
  {
    OutsideShows(req, VerifyReport(p, req, c));
    hide FromHex, Tdx.Verified, KeyShown;
  }

  lemma OtherTurnFills(p: Platform, s: State, i: nat, c: Choice)
    requires i < |s.requests| && !IsLocal(s.requests[i].phase)
    ensures TakeTurn(p, s, i, c).cachedPem == s.cachedPem
    ensures KeyShown(TakeTurn(p, s, i, c).requests[i]) ==> KeyShown(s.requests[i])
  {
    var req, req' := s.requests[i], TakeTurn(p, s, i, c).requests[i];
    hide LocalTurn, KeyShown, Enter, VerifyReport;
    match req.phase {
      case Arrived => EnterShows(p, req, c);
      case TdxVerify => if req.kind.VerifyAll? { VerifyReportShows(p, req, c); }
      case WaitingForLock => if s.holder.None? { OutsideShows(req, req'); }
      case NewScratch => OutsideShows(req, req');
      case DropScratch(_) => OutsideShows(req, req');
      case Unlock(_) => OutsideShows(req, req');
      case _ =>
    }
  }

  lemma NextFills(p: Platform, s: State, a: Action)
    requires CacheFilled(s)
    ensures CacheFilled(Next(p, s, a)) && (s.cachedPem.Some? ==> Next(p, s, a).cachedPem.Some?)
  {
    if a.Turn? && a.id < |s.requests| {
      OthersStay(p, s, a.id, a.choice);
      if IsLocal(s.requests[a.id].phase) {
        LocalTurnFills(p, s, a.id, a.choice);
      } else {
        OtherTurnFills(p, s, a.id, a.choice);
      }
      hide KeyShown, LocalTurn, Enter, VerifyReport, ScratchTurn, DropTurn, UnlockTurn, LockTurn, IsLocal;
    } else if a.Arrive? {
      NewShowsNoKey(a.kind, a.nonceText);
      hide KeyShown;
    }
  }

  lemma NewShowsNoKey(kind: Kind, nonceText: string)
    ensures !KeyShown(NewRequest(kind, nonceText))
  {
  }

  lemma {:induction false} RunFills(p: Platform, s: State, actions: seq<Action>)
    requires CacheFilled(s)
    ensures CacheFilled(Run(p, s, actions)) && (s.cachedPem.Some? ==> Run(p, s, actions).cachedPem.Some?)
    decreases |actions|
  {
    hide Next, CacheFilled;
    if actions != [] {
      NextFills(p, s, actions[0]);
      RunFills(p, Next(p, s, actions[0]), actions[1..]);
    }
  }

  /** In every reachable state: if any request was answered with a key, the cache holds the key's public part. */
  lemma AnswerFillsTheCache(p: Platform, s: State, i: nat, reply: Reply)
    requires Ideal(p) && Reachable(p, s) && Answered(s, i, reply) && HasKey(reply)
    ensures p.akHandle in s.tpm.keys && s.cachedPem == Some(p.pem(s.tpm.keys[p.akHandle]))
  {
    hide Ideal, Run, HasKey;
    var s0, actions :| Initial(s0) && |actions| < SCRATCH_IDS && s == Run(p, s0, actions);
    RunFills(p, s0, actions);
    assert KeyShown(s.requests[i]);
    hide Reachable;
    CacheIsCurrent(p, s);
  }

  // ----- later requests -----

  /** The cache is filled, and request `i` has found or will find it so. */
  predicate WarmFor(s: State, i: nat) {
    && s.cachedPem.Some?
    && (i < |s.requests| && !s.requests[i].kind.VerifyAll? && !s.requests[i].phase.Arrived?
        && !s.requests[i].phase.WaitingForLock?
        && (s.requests[i].phase.Finished? ==> s.requests[i].phase.outcome.Replied?) ==>
          s.requests[i].tally.warmAtLock)
  }

  lemma LocalTurnStaysWarm(p: Platform, s: State, i: nat, c: Choice)
    requires Ideal(p) && Inv(p, s) && i < |s.requests| && IsLocal(s.requests[i].phase) && WarmFor(s, i)
    requires LocalTurn(p, s, i, c).cachedPem.Some?
    ensures WarmFor(LocalTurn(p, s, i, c), i)
  {
    assert RequestOk(p, View(s, i));
    LocalIsInside(s.requests[i]);
    TallyStays(p, View(s, i), c);
    LocalKeeps(p, View(s, i), c);
    hide LocalStep, Inv, RequestOk, Ideal;
  }

  lemma TallyStays(p: Platform, l: Local, c: Choice)
    requires IsLocal(l.req.phase)
    ensures LocalStep(p, l, c).req.tally.warmAtLock == l.req.tally.warmAtLock
  {
    hide Issue, CommandOf, NormalizeNonce, EncodeBlob, JoinQuote, ReadFile, FromHex, ToHex, Tdx.Generated;
    hide DigestOf, Lower, DecodeBlob, CheckFiles, ReplyOf;
    if IsCommand(l.req.phase) {
      var (tpm, dir, fate) := Issue(p, l.tpm, l.dir, CommandOf(p, l.req), c);
      CommandKeepsTally(Counted(l.req), fate, p.akHandle in tpm.keys);
      hide AfterCommand, IsCommand;
    }
  }

  lemma CommandKeepsTally(req: Request, fate: Fate, akPresent: bool)
    requires IsCommand(req.phase)
    ensures AfterCommand(req, fate, akPresent).tally.warmAtLock == req.tally.warmAtLock
  {
  }

  lemma LockTurnStaysWarm(p: Platform, s: State, i: nat)
    requires CacheOk(p, s.tpm, s.cachedPem) && i < |s.requests| && WarmFor(s, i)
    requires s.requests[i].phase.WaitingForLock?
    ensures WarmFor(LockTurn(p, s, i), i)
  {
  }

  /** A turn that neither enters nor takes the lock leaves what was found. */
  lemma OnwardsStaysWarm(s: State, s': State, i: nat)
    requires i < |s.requests| && i < |s'.requests| && s'.cachedPem == s.cachedPem && WarmFor(s, i)
    requires s'.requests[i].kind == s.requests[i].kind && s'.requests[i].tally == s.requests[i].tally
    requires !s.requests[i].phase.Arrived? && !s.requests[i].phase.WaitingForLock?
    requires s.requests[i].phase.Finished? ==> s'.requests[i] == s.requests[i]
    ensures WarmFor(s', i)
  {
  }

  lemma OwnTurnStaysWarm(p: Platform, s: State, i: nat, c: Choice)
    requires Ideal(p) && Inv(p, s) && i < |s.requests| && !IsLocal(s.requests[i].phase) && WarmFor(s, i)
    ensures WarmFor(TakeTurn(p, s, i, c), i)
  {
    OtherTurnFills(p, s, i, c);
    var req, s' := s.requests[i], TakeTurn(p, s, i, c);
    hide LocalTurn, Enter, VerifyReport, LockTurn, KeyShown, Ideal;
    if req.phase.Arrived? {
      if !req.kind.VerifyAll? {
        EnterIsOutside(p, req, c);
      }
      EnterKeepsKind(p, req, c);
      hide Inv;
    } else if req.phase.WaitingForLock? {
      hide LockOk, ScratchOk, RequestsOk, CacheOk, WarmFor;
      LockTurnStaysWarm(p, s, i);
    } else if req.phase.TdxVerify? && req.kind.VerifyAll? {
      VerifyReportKeepsKind(p, req, c);
      hide Inv;
    } else {
      hide Inv, WarmFor;
      OnwardsStaysWarm(s, s', i);
    }
  }

  lemma EnterKeepsKind(p: Platform, req: Request, c: Choice)
    ensures Enter(p, req, c).kind == req.kind
  {
    hide NormalizeNonce;
  }

  lemma VerifyReportKeepsKind(p: Platform, req: Request, c: Choice)
    requires req.kind.VerifyAll?
    ensures VerifyReport(p, req, c).kind == req.kind
  {
    hide FromHex, Tdx.Verified;
  }

  lemma EnterIsOutside(p: Platform, req: Request, c: Choice)
    requires !req.kind.VerifyAll? && req.phase.Arrived?
    ensures
      var req' := Enter(p, req, c);
      req'.phase.WaitingForLock? || (req'.phase.Finished? && !req'.phase.outcome.Replied?)
  {
    hide NormalizeNonce;
  }

  lemma NextStaysWarm(p: Platform, s: State, i: nat, a: Action)
    requires Ideal(p) && Inv(p, s) && s.scratchCounter < SCRATCH_IDS && CacheFilled(s) && WarmFor(s, i)
    ensures WarmFor(Next(p, s, a), i)
  {
    NextFills(p, s, a);
    if Own(a, i) {
      if i < |s.requests| {
        if IsLocal(s.requests[i].phase) {
          LocalTurnStaysWarm(p, s, i, a.choice);
        } else {
          OwnTurnStaysWarm(p, s, i, a.choice);
        }
      }
      hide Inv, Ideal, CacheFilled, WarmFor, TakeTurn;
    } else if i < |s.requests| {
      OthersLeaveTheView(p, s, i, a);
      hide Inv, Ideal, CacheFilled, Next;
    } else {
      hide Inv, Ideal, CacheFilled, TakeTurn;
      if a.Turn? && a.id < |s.requests| {
        OthersStay(p, s, a.id, a.choice);
      }
    }
  }

  lemma {:induction false} RunStaysWarm(p: Platform, s: State, i: nat, actions: seq<Action>)
    requires Ideal(p) && Inv(p, s) && s.scratchCounter + |actions| <= SCRATCH_IDS && CacheFilled(s) && WarmFor(s, i)
    ensures WarmFor(Run(p, s, actions), i)
    decreases |actions|
  {
    hide Inv, Ideal, Next, CacheFilled, WarmFor;
    if actions != [] {
      NextKeeps(p, s, actions[0]);
      NextFills(p, s, actions[0]);
      NextStaysWarm(p, s, i, actions[0]);
      RunStaysWarm(p, Next(p, s, actions[0]), i, actions[1..]);
    }
  }

  /**
   * After any answer with a key, every quote and every attestation that had not got the lock by then and is
   * answered later ran exactly seven commands: it made no key and read no public part, whatever happened
   * before and in between.
   */
  lemma LaterOnesAreWarm(p: Platform, s: State, i: nat, reply: Reply, actions: seq<Action>, j: nat, later: Reply)
    requires Ideal(p) && Reachable(p, s) && Answered(s, i, reply) && HasKey(reply)
    requires j < |s.requests| ==> s.requests[j].phase.Arrived? || s.requests[j].phase.WaitingForLock?
    requires Reachable(p, Run(p, s, actions)) && s.scratchCounter + |actions| <= SCRATCH_IDS
    requires Answered(Run(p, s, actions), j, later)
    requires Run(p, s, actions).requests[j].kind.QuoteTpm? || Run(p, s, actions).requests[j].kind.AttestationAll?
    ensures Run(p, s, actions).requests[j].tally.commands == 7
  {
    ReachableOk(p, s);
    AnswerFillsTheCache(p, s, i, reply);
    ReachableFills(p, s);
    hide Ideal, Reachable, Inv, CacheFilled, Run, HasKey;
    RunStaysWarm(p, s, j, actions);
    AttestationCost(p, Run(p, s, actions), j, later);
  }

  lemma ReachableFills(p: Platform, s: State)
    requires Reachable(p, s)
    ensures CacheFilled(s)
  {
    hide Run, KeyShown;
    var s0, actions :| Initial(s0) && |actions| < SCRATCH_IDS && s == Run(p, s0, actions);
    RunFills(p, s0, actions);
  }
}
