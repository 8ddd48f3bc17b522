/** The lock is given back: by its holder's own steps, whatever they come to. */
module Release {
  import opened Wrappers
  import opened Text
  import opened Codec
  import opened Nonce
  import opened Tpm
  import opened Service
  import opened Safety
  import opened Guarantees
  import opened Progress
  import Tdx

  lemma CommandRises(p: Platform, l: Local, c: Choice)
    requires IsCommand(l.req.phase) && !l.req.kind.VerifyAll?
    ensures
      var req := CommandStep(p, l, c).req;
      (req.phase.DropScratch? || Rank(req.phase) > Rank(l.req.phase)) && req.kind == l.req.kind
  {
    hide Issue, CommandOf;
  }

  /** Every step of a transaction leads on or out, whatever it comes to. */
  lemma LocalRises(p: Platform, l: Local, c: Choice)
    requires IsLocal(l.req.phase) && !l.req.kind.VerifyAll? && Rank(l.req.phase) > 1
    ensures
      var req := LocalStep(p, l, c).req;
      Distance(req) < Distance(l.req) && Locked(req)
  {
    hide CommandStep, DigestOf, ReadQuote, AttachReport, ReadFile, ReplyOf;
    if IsCommand(l.req.phase) {
      CommandRises(p, l, c);
    } else if l.req.phase.Blobs? {
      QuoteRises(l.req, l.dir);
    } else if l.req.phase.TdxReport? {
      ReportRises(p, l.req, c.access);
    }
  }

  lemma QuoteRises(req: Request, dir: Directory)
    requires req.phase.Blobs?
    ensures
      var req' := ReadQuote(req, dir);
      (req'.phase.DropScratch? || Rank(req'.phase) > Rank(req.phase)) && req'.kind == req.kind
  {
    hide NormalizeNonce, EncodeBlob, JoinQuote, ReadFile;
  }

  lemma ReportRises(p: Platform, req: Request, access: Tdx.Access)
    requires req.phase.TdxReport?
    ensures
      var req' := AttachReport(p, req, access);
      (req'.phase.DropScratch? || Rank(req'.phase) > Rank(req.phase)) && req'.kind == req.kind
  {
    hide FromHex, Tdx.Generated, ToHex;
  }

  lemma HolderIsInside(p: Platform, s: State, i: nat)
    requires Inv(p, s) && s.holder == Some(i)
    ensures i < |s.requests| && Locked(s.requests[i])
    ensures
      var req := s.requests[i];
      && (IsLocal(req.phase) ==> Rank(req.phase) > 1)
      && (IsLocal(req.phase) || req.phase.NewScratch? || req.phase.DropScratch? || req.phase.Unlock?)
      && Distance(req) <= 29
  {
    assert RequestOk(p, View(s, i));
    hide TransactionOk, OutcomeOk, EvidenceOk, CacheOk, ScratchOk, RequestsOk;
  }

  /** A turn of the holder brings it closer to the end of its transaction, or ends it. */
  lemma OwnTurnReleases(p: Platform, s: State, i: nat, c: Choice)
    requires Inv(p, s) && s.holder == Some(i)
    ensures
      var s' := Next(p, s, Turn(i, c));
      && |s'.requests| == |s.requests|
      && (s'.holder.None? || (s'.holder == Some(i) && Distance(s'.requests[i]) < Distance(s.requests[i])))
  {
    HolderIsInside(p, s, i);
    hide LocalStep, Inv;
    if IsLocal(s.requests[i].phase) {
      LocalRises(p, Local(s.tpm, s.cachedPem, DirectoryOf(s, s.requests[i]), s.requests[i]), c);
    }
  }

  /** What others do does not take the lock away. */
  lemma OthersLeaveTheLock(p: Platform, s: State, i: nat, a: Action)
    requires Inv(p, s) && s.holder == Some(i) && (a.Turn? ==> a.id != i)
    ensures
      var s' := Next(p, s, a);
      s'.holder == Some(i) && i < |s.requests| <= |s'.requests| && s'.requests[i] == s.requests[i]
  {
    HolderIsInside(p, s, i);
    if a.Turn? && a.id < |s.requests| {
      assert RequestOk(p, View(s, a.id)) && !Locked(s.requests[a.id]);
    }
    hide LocalStep, Enter, VerifyReport, TransactionOk, OutcomeOk, EvidenceOk, VerificationOk,
      CacheOk, ScratchOk, RequestsOk;
  }

  /** A turn of request `i`. */
  predicate Own(a: Action, i: nat) {
    a.Turn? && a.id == i
  }

  /** How often request `i` is given a turn. */
  function OwnTurns(actions: seq<Action>, i: nat): nat {
    if actions == [] then 0 else (if Own(actions[0], i) then 1 else 0) + OwnTurns(actions[1..], i)
  }

  /** A turn touches no request but its own. */
  lemma OthersStay(p: Platform, s: State, i: nat, c: Choice)
    requires i < |s.requests|
    ensures
      var s' := TakeTurn(p, s, i, c);
      |s'.requests| == |s.requests| && forall j | 0 <= j < |s.requests| && j != i :: s'.requests[j] == s.requests[j]
  {
    hide LocalStep, Enter, VerifyReport, Leave;
  }

  /**
   * A request that has the lock gives it back within 29 turns of its own, whatever its steps come to
   * and whatever other requests do in between.
   */
  lemma {:induction false} HolderReleases(p: Platform, s: State, i: nat, actions: seq<Action>) returns (k: nat)
    requires Ideal(p) && Inv(p, s) && s.scratchCounter + |actions| <= SCRATCH_IDS && s.holder == Some(i)
    requires i < |s.requests| && OwnTurns(actions, i) >= Distance(s.requests[i])
    ensures k <= |actions| && Run(p, s, actions[..k]).holder.None?
    decreases |actions|
  {
    HolderIsInside(p, s, i);
    assert actions != [] by {
      HolderHasWay(s.requests[i]);
    }
    var a, rest := actions[0], actions[1..];
    var s' := Next(p, s, a);
    hide Inv, Next, Locked, IsLocal, Distance, Ideal;
    NextKeeps(p, s, a);
    if a.Turn? && a.id == i {
      OwnTurnReleases(p, s, i, a.choice);
    } else {
      OthersLeaveTheLock(p, s, i, a);
    }
    if s'.holder.None? {
      k := 1;
      OneAction(p, s, actions);
    } else {
      var j := HolderReleases(p, s', i, rest);
      k := j + 1;
      assert actions[..k][1..] == rest[..j] && actions[..k][0] == a;
    }
  }

  lemma HolderHasWay(req: Request)
    requires Locked(req)
    ensures Distance(req) > 0
  {
  }

  lemma OneAction(p: Platform, s: State, actions: seq<Action>)
    requires actions != []
    ensures Run(p, s, actions[..1]) == Next(p, s, actions[0])
  {
    var none: seq<Action> := [];
    assert actions[..1][1..] == none && Run(p, Next(p, s, actions[0]), none) == Next(p, s, actions[0]);
  }

  /** So from every state there is a way to a free lock, by turns of its holder alone. */
  lemma {:induction false} LockCanBeFreed(p: Platform, s: State, c: Choice) returns (actions: seq<Action>)
    requires Ideal(p) && Inv(p, s) && s.scratchCounter + 29 <= SCRATCH_IDS
    ensures |actions| <= 29 && Run(p, s, actions).holder.None? && |Run(p, s, actions).requests| == |s.requests|
  {
    if s.holder.None? {
      actions := [];
    } else {
      HolderIsInside(p, s, s.holder.value);
      actions := HolderCanRelease(p, s, s.holder.value, c);
    }
  }

  lemma {:induction false} HolderCanRelease(p: Platform, s: State, i: nat, c: Choice) returns (actions: seq<Action>)
    requires Ideal(p) && Inv(p, s) && s.holder == Some(i) && i < |s.requests|
    requires s.scratchCounter + Distance(s.requests[i]) <= SCRATCH_IDS
    ensures |actions| <= Distance(s.requests[i])
    ensures Run(p, s, actions).holder.None? && |Run(p, s, actions).requests| == |s.requests|
    decreases Distance(s.requests[i])
  {
    HolderIsInside(p, s, i);
    HolderHasWay(s.requests[i]);
    var a := Turn(i, c);
    hide Inv, Next, Locked, IsLocal, Distance, Ideal;
    NextKeeps(p, s, a);
    OwnTurnReleases(p, s, i, c);
    var rest: seq<Action> := [];
    if Next(p, s, a).holder.Some? {
      rest := HolderCanRelease(p, Next(p, s, a), i, c);
    }
    actions := [a] + rest;
    assert actions[1..] == rest && actions[0] == a;
  }
}
