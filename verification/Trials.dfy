/** A verification that meets no failure of its own is answered, without the lock. */
module Trials {
  import opened Wrappers
  import opened Text
  import opened Codec
  import opened Tpm
  import opened Service
  import opened Safety
  import opened Guarantees
  import opened Progress
  import opened Release
  import opened Schedules
  import Tdx

  /** The number of steps a verification still needs; 20 in phases that are none of its own. */
  function StepsLeft(req: Request): nat {
    match req.phase
    case Arrived => 10 case TdxVerify => 9 case NewScratch => 8 case Decode => 7
    case WriteSignature => 6 case WriteMessage => 5 case WritePem => 4 case CheckQuote => 3
    case DropScratch(_) => 2 case Finished(_) => 0 case _ => 20
  }

  /** A verification of something that has a verdict, nothing having gone wrong so far. */
  predicate OnTrial(p: Platform, req: Request) {
    && req.kind.VerifyAll? && VerdictFor(p, req.kind.body).Some? && StepsLeft(req) < 20
    && (req.phase.DropScratch? || req.phase.Finished? ==> req.phase.outcome.Replied?)
  }

  predicate Nearer(p: Platform, req: Request, req': Request) {
    OnTrial(p, req') && StepsLeft(req') < StepsLeft(req) && req'.kind == req.kind
  }

  lemma LocalStepIsNearer(p: Platform, l: Local, reading: Reading, key: Key)
    requires OnTrial(p, l.req) && IsLocal(l.req.phase)
    ensures Nearer(p, l.req, LocalStep(p, l, Smooth(reading, key)).req)
  {
    hide CommandStep, CheckFiles, DecodeBlob, FromHex;
  }

  lemma ReportStepIsNearer(p: Platform, req: Request, reading: Reading, key: Key)
    requires OnTrial(p, req) && req.phase.TdxVerify?
    ensures Nearer(p, req, VerifyReport(p, req, Smooth(reading, key)))
  {
    hide DecodeBlob, FromHex;
  }

  lemma EnterIsNearer(p: Platform, req: Request, reading: Reading, key: Key)
    requires OnTrial(p, req) && req.phase.Arrived?
    ensures Nearer(p, req, Enter(p, req, Smooth(reading, key)))
  {
    hide DecodeBlob, FromHex;
  }

  lemma ScratchIsNearer(p: Platform, s: State, i: nat, c: Choice)
    requires i < |s.requests| && OnTrial(p, s.requests[i]) && s.requests[i].phase.NewScratch?
    requires c.succeeds && !c.panics
    ensures Nearer(p, s.requests[i], ScratchTurn(s, i, c).requests[i])
  {
    hide VerdictFor;
  }

  lemma DropIsNearer(p: Platform, s: State, i: nat, c: Choice)
    requires i < |s.requests| && OnTrial(p, s.requests[i]) && s.requests[i].phase.DropScratch?
    ensures Nearer(p, s.requests[i], DropTurn(s, i, c).requests[i])
  {
    hide VerdictFor;
  }

  lemma TurnIsNearer(p: Platform, s: State, i: nat, c: Choice)
    requires i < |s.requests| && OnTrial(p, s.requests[i]) && !s.requests[i].phase.Finished?
    requires SmoothStep(p, c, false)
    ensures
      var s' := Next(p, s, Turn(i, c));
      i < |s'.requests| && Nearer(p, s.requests[i], s'.requests[i])
  {
    var req := s.requests[i];
    hide LocalStep, Enter, VerifyReport, VerdictFor, ScratchTurn, DropTurn, Nearer;
    if IsLocal(req.phase) {
      LocalStepIsNearer(p, Local(s.tpm, s.cachedPem, DirectoryOf(s, req), req), c.reading, c.newKey);
    } else if req.phase.Arrived? {
      EnterIsNearer(p, req, c.reading, c.newKey);
    } else if req.phase.TdxVerify? {
      ReportStepIsNearer(p, req, c.reading, c.newKey);
    } else if req.phase.NewScratch? {
      ScratchIsNearer(p, s, i, c);
    } else {
      DropIsNearer(p, s, i, c);
    }
  }

  /** One action of any request: a verification stays on trial, and is nearer to its end if it was its turn. */
  lemma ActionIsNearer(p: Platform, s: State, i: nat, a: Action)
    requires i < |s.requests| && OnTrial(p, s.requests[i]) && (Own(a, i) ==> SmoothStep(p, a.choice, false))
    ensures
      var s' := Next(p, s, a);
      && i < |s'.requests| && OnTrial(p, s'.requests[i]) && s'.requests[i].kind == s.requests[i].kind
      && StepsLeft(s'.requests[i]) <= StepsLeft(s.requests[i])
      && (Own(a, i) && StepsLeft(s.requests[i]) > 0 ==> StepsLeft(s'.requests[i]) < StepsLeft(s.requests[i]))
  {
    hide TakeTurn, VerdictFor, SmoothStep;
    if Own(a, i) {
      if s.requests[i].phase.Finished? {
        IdleTurn(p, s, i, a.choice);
      } else {
        TurnIsNearer(p, s, i, a.choice);
      }
    } else if a.Turn? && a.id < |s.requests| {
      OthersStay(p, s, a.id, a.choice);
    }
  }

  lemma ArrivedAtVerdict(p: Platform, req: Request)
    requires OnTrial(p, req) && StepsLeft(req) == 0
    ensures req.phase.Finished? && req.phase.outcome.Replied?
  {
    hide VerdictFor;
  }

  /** In every continuation that gives it enough turns, whoever holds the lock, a verification is answered. */
  lemma {:induction false} TrialEnds(p: Platform, s: State, i: nat, actions: seq<Action>) returns (reply: Reply)
    requires i < |s.requests| && OnTrial(p, s.requests[i])
    requires SmoothTurns(p, actions, i, false) && OwnTurns(actions, i) >= StepsLeft(s.requests[i])
    ensures Answered(Run(p, s, actions), i, reply) && Run(p, s, actions).requests[i].kind == s.requests[i].kind
    decreases |actions|
  {
    if actions == [] {
      ArrivedAtVerdict(p, s.requests[i]);
      reply := s.requests[i].phase.outcome.reply;
    } else {
      hide Next, OnTrial, StepsLeft, SmoothTurns, SmoothStep;
      SmoothRest(p, actions, i, false);
      ActionIsNearer(p, s, i, actions[0]);
      reply := TrialEnds(p, Next(p, s, actions[0]), i, actions[1..]);
    }
  }
}
