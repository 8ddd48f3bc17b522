/** A request that meets no failure of its own is answered. */
module Progress {
  import opened Wrappers
  import opened Text
  import opened Codec
  import opened Nonce
  import opened Tpm
  import opened Service
  import opened Safety
  import opened Guarantees
  import Tdx

  /** A step at which nothing goes wrong. */
  function Smooth(reading: Reading, key: Key): Choice {
    Choice(false, true, true, false, reading, key, Tdx.Present)
  }

  /** More than the number of steps a measuring request still needs. */
  function Distance(req: Request): nat {
    if req.phase.Arrived? then 40
    else if req.phase.WaitingForLock? then 39
    else if req.phase.DropScratch? then 3
    else if req.phase.Unlock? then 2
    else if req.phase.Finished? then 0
    else 30 - Rank(req.phase)
  }

  /** The reply shows the public part of the key. */
  predicate HasKey(reply: Reply) {
    match reply
    case Information(_, _, pem) => pem.Some?
    case Attested(a) => a.akPubkey != ""
    case Verdict(_, _, _) => false
  }

  /** What a measuring request has achieved in each phase if nothing has gone wrong. */
  predicate OnCourse(l: Local) {
    var ph := l.req.phase;
    && !l.req.kind.VerifyAll?
    && (Rank(ph) >= 4 ==> l.tpm.started)
    && (ph.Flush2? || ph.MakeAk? ==> EkContext in l.dir)
    && (ph.Flush3? || ph.PersistAk? ==> AkContext in l.dir && l.dir[AkContext].Context?)
    && (ph.PemFile? ==> AkPem in l.dir && l.dir[AkPem].Pem?)
    && (ph.Assemble? ==> l.req.vars.pem.Some?)
    && (ph.DropScratch? || ph.Unlock? || ph.Finished? ==> ph.outcome.Replied? && HasKey(ph.outcome.reply))
    && (ph.Arrived? && !l.req.kind.InformationTpm? ==> Usable(l.req.nonceText))
  }

  predicate SameRequest(req: Request, req': Request) {
    req'.kind == req.kind && req'.nonceText == req.nonceText
  }

  predicate Advances(l: Local, l': Local) {
    OnCourse(l') && Distance(l'.req) < Distance(l.req) && SameRequest(l.req, l'.req)
  }

  /** A smooth command of the first half succeeds, and leaves the TPM started. */
  lemma MeasuringCommandSucceeds(p: Platform, l: Local, reading: Reading, key: Key)
    requires OnCourse(l) && IsCommand(l.req.phase) && Rank(l.req.phase) <= 8
    requires l.req.phase.ExtendPcr? ==> |DecodedOr(l.req.vars.totalHash)| == DIGEST_LEN
    ensures
      var (tpm, dir, fate) := Issue(p, l.tpm, l.dir, CommandOf(p, l.req), Smooth(reading, key));
      tpm.started && (fate.Success? || (l.req.phase.StartTpm? && fate.Rejected?))
  {
    hide Usable, DecodedOr;
  }

  /** The phase after such a command asks for no more than that. */
  lemma MeasuringCommandLeads(l: Local, tpm: Tpm.Device, dir: Directory, fate: Fate, akPresent: bool)
    requires OnCourse(l) && IsCommand(l.req.phase) && Rank(l.req.phase) <= 8
    requires tpm.started && (fate.Success? || (l.req.phase.StartTpm? && fate.Rejected?))
    ensures Advances(l, l.(tpm := tpm, dir := dir, req := AfterCommand(Counted(l.req), fate, akPresent)))
  {
    hide Usable;
  }

  lemma MeasuringCommandAdvances(p: Platform, l: Local, reading: Reading, key: Key)
    requires Ideal(p) && OnCourse(l) && IsCommand(l.req.phase) && Rank(l.req.phase) <= 8
    requires PcrOk(p, l.tpm, l.dir, l.req)
    ensures Advances(l, CommandStep(p, l, Smooth(reading, key)))
  {
    DigestFits(p, l);
    MeasuringCommandSucceeds(p, l, reading, key);
    var (tpm, dir, fate) := Issue(p, l.tpm, l.dir, CommandOf(p, l.req), Smooth(reading, key));
    MeasuringCommandLeads(l, tpm, dir, fate, p.akHandle in tpm.keys);
    hide PcrOk, Ideal, DecodedOr, OnCourse, Issue, AfterCommand, IsCommand, Advances;
  }

  lemma DigestFits(p: Platform, l: Local)
    requires Ideal(p) && PcrOk(p, l.tpm, l.dir, l.req)
    ensures Rank(l.req.phase) >= 3 ==> |DecodedOr(l.req.vars.totalHash)| == DIGEST_LEN
  {
    DigestDecodes(p, l.req);
    hide DecodedOr, DigestOf, Extended;
  }

  /** Flushing changes nothing but the count. */
  lemma FlushStep(p: Platform, l: Local, c: Choice)
    requires IsFlush(l.req.phase) && !c.panics
    ensures
      var next := match l.req.phase
        case Flush1 => MakeEk case Flush2 => MakeAk case Flush3 => PersistAk case FlushQuote => SignQuote
        case Flush4 => if l.req.kind.InformationTpm? then AkCache else FlushQuote
        case _ => ReadAk;
      CommandStep(p, l, c) == l.(req := Counted(l.req).(phase := next))
  {
  }

  lemma FlushAdvances(p: Platform, l: Local, reading: Reading, key: Key)
    requires OnCourse(l) && IsFlush(l.req.phase)
    requires l.req.phase.FlushQuote? ==> !l.req.kind.InformationTpm?
    ensures Advances(l, CommandStep(p, l, Smooth(reading, key)))
  {
    FlushStep(p, l, Smooth(reading, key));
    hide CommandStep, Usable;
  }

  lemma SigningCommandAdvances(p: Platform, l: Local, reading: Reading, key: Key)
    requires OnCourse(l) && IsCommand(l.req.phase) && !IsFlush(l.req.phase) && Rank(l.req.phase) > 8
    requires AkOk(p, l.tpm, l.cachedPem, l.dir, l.req)
    ensures Advances(l, CommandStep(p, l, Smooth(reading, key)))
  {
    hide DecodedOr, Usable, AkOf;
  }

  /** A later phase that asks for nothing new. */
  lemma MovesOn(l: Local, req: Request)
    requires OnCourse(l) && SameRequest(l.req, req) && 4 <= Rank(l.req.phase) < Rank(req.phase) <= 24
    requires 14 < Rank(req.phase) <= 22 || (req.phase.Assemble? && req.vars.pem.Some?)
    ensures Advances(l, l.(req := req))
  {
    hide Usable;
  }

  lemma BlobsAdvance(p: Platform, l: Local)
    requires Ideal(p) && OnCourse(l) && l.req.phase.Blobs? && PcrOk(p, l.tpm, l.dir, l.req)
    requires Canonical(l.req.vars.nonce) && SignedFiles(p, l.tpm, l.dir, l.req)
    ensures Advances(l, l.(req := ReadQuote(l.req, l.dir)))
  {
    hide ReadQuote, Quoted, Canonical, NormalizeNonce, SignedFiles, PcrOk, OnCourse, Advances, Ideal,
      Extended, DecodedOr;
    PcrIsExtended(p, l);
    EvidenceOfFiles(p, l.tpm, l.dir, l.req);
    MovesOn(l, ReadQuote(l.req, l.dir));
  }

  lemma ReportAdvances(p: Platform, l: Local)
    requires Ideal(p) && OnCourse(l) && l.req.phase.TdxReport?
    requires Canonical(l.req.vars.nonce) && l.req.vars.nonceSize == |DecodedOr(l.req.vars.nonce)|
    ensures Advances(l, l.(req := AttachReport(p, l.req, Tdx.Present)))
  {
    hide AttachReport, Reported, Canonical, Usable, OnCourse, Advances, Ideal;
    ReportOfNonce(p, l.req, Tdx.Present);
    MovesOn(l, AttachReport(p, l.req, Tdx.Present));
  }

  lemma CommandAdvances(p: Platform, l: Local, reading: Reading, key: Key)
    requires Ideal(p) && OnCourse(l) && TransactionOk(p, l) && IsCommand(l.req.phase)
    ensures Advances(l, CommandStep(p, l, Smooth(reading, key)))
  {
    hide PcrOk, AkOk, EvidenceOk, CountOk, CommandStep, OnCourse, Advances, Ideal;
    if Rank(l.req.phase) <= 8 {
      MeasuringCommandAdvances(p, l, reading, key);
    } else if IsFlush(l.req.phase) {
      NoQuoteForInformation(p, l);
      FlushAdvances(p, l, reading, key);
    } else {
      SigningCommandAdvances(p, l, reading, key);
    }
  }

  lemma LocalAdvances(p: Platform, l: Local, reading: Reading, key: Key)
    requires DigestOf(p, reading).Some?
    requires Ideal(p) && CacheOk(p, l.tpm, l.cachedPem) && IsLocal(l.req.phase)
    requires OnCourse(l) && RequestOk(p, l)
    ensures Advances(l, LocalStep(p, l, Smooth(reading, key)))
  {
    hide RequestOk, PcrOk, AkOk, EvidenceOk, CountOk, CommandStep, ReadQuote, AttachReport, ReplyOf, Ideal, CacheOk;
    hide OnCourse, Advances;
    OnlyMeasuring(l);
    InTransaction(p, l);
    if IsCommand(l.req.phase) {
      CommandAdvances(p, l, reading, key);
    } else if l.req.phase.Blobs? {
      EvidenceParts(p, l);
      BlobsAdvance(p, l);
    } else if l.req.phase.TdxReport? {
      EvidenceParts(p, l);
      ReportAdvances(p, l);
    } else {
      RestAdvances(p, l, reading, key);
    }
  }

  lemma OnlyMeasuring(l: Local)
    requires OnCourse(l)
    ensures !l.req.kind.VerifyAll?
  {
  }

  lemma RestAdvances(p: Platform, l: Local, reading: Reading, key: Key)
    requires CacheOk(p, l.tpm, l.cachedPem) && OnCourse(l) && PcrOk(p, l.tpm, l.dir, l.req)
    requires Ideal(p) && AkOk(p, l.tpm, l.cachedPem, l.dir, l.req) && DigestOf(p, reading).Some?
    requires IsLocal(l.req.phase) && !IsCommand(l.req.phase) && Rank(l.req.phase) > 1
    requires !l.req.phase.Blobs? && !l.req.phase.TdxReport?
    ensures Advances(l, LocalStep(p, l, Smooth(reading, key)))
  {
    hide CommandStep, ReadQuote, AttachReport, OnCourse, PcrOk, CacheOk, AkOk, Ideal, ReplyOf, Advances, DigestOf,
      MeasureStep, PcrFileStep, CacheStep, PemStep;
    OnlyMeasuring(l);
    var c := Smooth(reading, key);
    match l.req.phase {
      case Measure => MeasureAdvances(p, l, c);
      case PcrFile => PcrFileAdvances(p, l, c);
      case AkCache => CacheAdvances(l);
      case PemFile => PemAdvances(l, c);
      case Assemble => AssembleAdvances(p, l);
      case _ =>
    }
  }

  lemma MeasureAdvances(p: Platform, l: Local, c: Choice)
    requires OnCourse(l) && l.req.phase.Measure? && DigestOf(p, c.reading).Some?
    ensures Advances(l, MeasureStep(p, l, c))
  {
    hide Usable, DigestOf;
  }

  lemma PcrFileAdvances(p: Platform, l: Local, c: Choice)
    requires OnCourse(l) && l.req.phase.PcrFile? && c.succeeds
    requires PcrOk(p, l.tpm, l.dir, l.req) && CacheOk(p, l.tpm, l.cachedPem)
    ensures Advances(l, PcrFileStep(l, c))
  {
    PcrIsThere(p, l);
    hide Usable, PcrOk, CacheOk, ReadFile;
  }

  lemma CacheAdvances(l: Local)
    requires OnCourse(l) && l.req.phase.AkCache?
    ensures Advances(l, CacheStep(l))
  {
    hide Usable;
  }

  lemma PemAdvances(l: Local, c: Choice)
    requires OnCourse(l) && l.req.phase.PemFile? && c.succeeds
    ensures Advances(l, PemStep(l, c))
  {
    hide Usable;
  }

  lemma AssembleAdvances(p: Platform, l: Local)
    requires Ideal(p) && OnCourse(l) && l.req.phase.Assemble? && AkOk(p, l.tpm, l.cachedPem, l.dir, l.req)
    ensures Advances(l, l.(req := l.req.(phase := DropScratch(Replied(ReplyOf(l.req))))))
  {
    AssembledHasKey(p, l);
    hide Usable, AkOk, ReplyOf, HasKey, Ideal;
  }

  /** A public key is never empty. */
  lemma AssembledHasKey(p: Platform, l: Local)
    requires Ideal(p) && OnCourse(l) && l.req.phase.Assemble? && AkOk(p, l.tpm, l.cachedPem, l.dir, l.req)
    ensures HasKey(ReplyOf(l.req))
  {
    hide Usable;
  }

  lemma NoQuoteForInformation(p: Platform, l: Local)
    requires EvidenceOk(p, l.tpm, l.dir, l.req)
    ensures 16 <= Rank(l.req.phase) <= 19 ==> !l.req.kind.InformationTpm?
  {
  }

  lemma PcrIsThere(p: Platform, l: Local)
    requires PcrOk(p, l.tpm, l.dir, l.req) && l.req.phase.PcrFile? && CacheOk(p, l.tpm, l.cachedPem)
    ensures ReadFile(l.dir, PcrBin) == Some(l.tpm.pcr)
  {
  }

  // ----- the whole service -----

  predicate Going(s: State, i: nat) {
    i < |s.requests| && OnCourse(View(s, i))
  }

  /** Request `i` waits for a lock that another one holds: its turns come to nothing. */
  predicate Blocked(s: State, i: nat) {
    i < |s.requests| && s.requests[i].phase.WaitingForLock? && s.holder.Some?
  }

  /** Request `i` is on course, and the lock is free for as long as it does not hold it. */
  predicate Ready(s: State, i: nat) {
    Going(s, i) && (s.requests[i].phase.Arrived? || s.requests[i].phase.WaitingForLock? ==> s.holder.None?)
  }

  predicate Moved(s: State, s': State, i: nat)
    requires i < |s.requests|
  {
    Going(s', i) && Distance(s'.requests[i]) < Distance(s.requests[i]) && SameRequest(s.requests[i], s'.requests[i])
  }

  lemma LocalTurnAdvances(p: Platform, s: State, i: nat, reading: Reading, key: Key)
    requires DigestOf(p, reading).Some?
    requires Ideal(p) && Inv(p, s) && Going(s, i) && IsLocal(s.requests[i].phase)
    ensures Moved(s, LocalTurn(p, s, i, Smooth(reading, key)), i)
  {
    hide LocalStep, RequestOk, CacheOk, IsLocal, OnCourse;
    var s', l := LocalTurn(p, s, i, Smooth(reading, key)), View(s, i);
    LocalAdvances(p, l, reading, key);
    LocalKeeps(p, l, Smooth(reading, key));
    var l' := LocalStep(p, l, Smooth(reading, key));
    LocalIsInside(l.req);
    LocalIsInside(l'.req);
    assert View(s', i) == l';
  }

  lemma LocalIsInside(req: Request)
    requires IsLocal(req.phase) || req.phase.DropScratch?
    ensures HasScratch(req) && !req.phase.Arrived? && !req.phase.WaitingForLock?
  {
  }

  lemma EnterAdvances(p: Platform, s: State, i: nat, c: Choice)
    requires Going(s, i) && s.requests[i].phase.Arrived? && !c.panics
    ensures Moved(s, SetRequest(s, i, Enter(p, s.requests[i], c)), i)
  {
    AcceptedExactly(s.requests[i].nonceText);
    hide NormalizeNonce, Usable, Canonical;
  }

  lemma LockAdvances(p: Platform, s: State, i: nat)
    requires Going(s, i) && s.requests[i].phase.WaitingForLock? && s.holder.None?
    ensures Moved(s, LockTurn(p, s, i), i)
  {
    hide Usable;
  }

  lemma ScratchAdvances(s: State, i: nat, c: Choice)
    requires Going(s, i) && s.requests[i].phase.NewScratch? && c.succeeds && !c.panics
    ensures Moved(s, ScratchTurn(s, i, c), i)
  {
    hide Usable;
  }

  lemma DropAdvances(s: State, i: nat, c: Choice)
    requires Going(s, i) && s.requests[i].phase.DropScratch?
    ensures Moved(s, DropTurn(s, i, c), i)
  {
    hide Usable;
  }

  lemma UnlockAdvances(s: State, i: nat)
    requires Going(s, i) && s.requests[i].phase.Unlock?
    ensures Moved(s, UnlockTurn(s, i), i)
  {
    hide Usable;
  }

  lemma TurnAdvances(p: Platform, s: State, i: nat, reading: Reading, key: Key)
    requires DigestOf(p, reading).Some?
    requires Ideal(p) && Inv(p, s) && Going(s, i) && !s.requests[i].phase.Finished? && !Blocked(s, i)
    ensures Moved(s, Next(p, s, Turn(i, Smooth(reading, key))), i)
  {
    var c := Smooth(reading, key);
    if IsLocal(s.requests[i].phase) {
      LocalTurnAdvances(p, s, i, reading, key);
    } else {
      NoVerification(p, s, i);
      match s.requests[i].phase {
        case Arrived => EnterAdvances(p, s, i, c);
        case WaitingForLock => LockAdvances(p, s, i);
        case NewScratch => ScratchAdvances(s, i, c);
        case DropScratch(_) => DropAdvances(s, i, c);
        case _ => UnlockAdvances(s, i);
      }
    }
    hide Inv, Moved, Going, LocalTurn, Enter, LockTurn, ScratchTurn, DropTurn, UnlockTurn, Ideal;
  }

  /** A measuring request is in no phase of a verification. */
  lemma NoVerification(p: Platform, s: State, i: nat)
    requires Inv(p, s) && Going(s, i) && !IsLocal(s.requests[i].phase) && !s.requests[i].phase.Finished?
    ensures
      var ph := s.requests[i].phase;
      ph.Arrived? || ph.WaitingForLock? || ph.NewScratch? || ph.DropScratch? || ph.Unlock?
  {
    assert RequestOk(p, View(s, i));
    hide TransactionOk, EvidenceOk, OutcomeOk, Usable;
  }

  /** Entering does not touch the lock, and only entering leads to waiting. */
  lemma LockStaysFree(p: Platform, s: State, i: nat, c: Choice)
    requires Inv(p, s) && Ready(s, i) && Moved(s, Next(p, s, Turn(i, c)), i)
    ensures Ready(Next(p, s, Turn(i, c)), i)
  {
    hide Inv, LocalTurn, ScratchTurn, DropTurn, OnCourse, Enter, VerifyReport;
  }

  /** Left alone, a request that is on course is answered. */
  lemma {:induction false} LeftAloneIsAnswered(p: Platform, s: State, i: nat, reading: Reading, key: Key)
    returns (actions: seq<Action>, reply: Reply)
    requires DigestOf(p, reading).Some?
    requires Ideal(p) && Inv(p, s) && Ready(s, i)
    requires s.scratchCounter + Distance(s.requests[i]) <= SCRATCH_IDS
    ensures |actions| <= Distance(s.requests[i])
    ensures Answered(Run(p, s, actions), i, reply) && SameRequest(s.requests[i], Run(p, s, actions).requests[i])
    ensures HasKey(reply)
    decreases Distance(s.requests[i])
  {
    if s.requests[i].phase.Finished? {
      actions, reply := [], s.requests[i].phase.outcome.reply;
    } else {
      hide Inv, Ideal, OnCourse, Next;
      var a := Turn(i, Smooth(reading, key));
      TurnAdvances(p, s, i, reading, key);
      LockStaysFree(p, s, i, a.choice);
      NextKeeps(p, s, a);
      var rest;
      rest, reply := LeftAloneIsAnswered(p, Next(p, s, a), i, reading, key);
      actions := [a] + rest;
      assert actions[1..] == rest;
    }
  }
}
