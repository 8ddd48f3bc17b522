/** How the stage spans of a handler share out its time, on every way out of it. */
module Stages {
  import opened Wrappers
  import opened Metrics

  // ----- handlers -----

  /** What a handler does, as far as its guards and its ways out are concerned. */
  datatype Step =
    | Begin(name: string)   // a stage span comes into scope
    | End                   // the span is ended
    | Work                  // anything that takes time and may return early or panic
    | MakeScratch           // the scratch directory comes into scope
    | DropScratch           // its scope ends

  /** A local whose drop records time. */
  datatype Guard = SpanGuard(name: string, started: nat) | ScratchGuard

  /** A stage sample; `nested` tells that another stage was still running. */
  datatype Record = Record(name: string, from: nat, to: nat, nested: bool)

  /** One reading of the outside world: how long things take, and whether they fail. */
  datatype Tick = Tick(before: nat, during: nat, fails: bool)

  datatype Frame = Frame(now: nat, guards: seq<Guard>, records: seq<Record>, done: bool)

  const SCRATCH_DROP := "scratch_drop_us"

  predicate HasSpan(guards: seq<Guard>) {
    exists i | 0 <= i < |guards| :: guards[i].SpanGuard?
  }

  /** Dropping the newest guard. */
  function DropLast(f: Frame, tick: Tick): Frame
    requires f.guards != []
  {
    var n := |f.guards| - 1;
    var (g, rest) := (f.guards[n], f.guards[..n]);
    var from := f.now + tick.before;
    match g
    case SpanGuard(name, started) =>
      f.(now := from, guards := rest, records := f.records + [Record(name, started, from, HasSpan(rest))])
    case ScratchGuard =>
      var to := from + tick.during;
      f.(now := to, guards := rest, records := f.records + [Record(SCRATCH_DROP, from, to, HasSpan(rest))])
  }

  /** Leaving early: all guards are dropped, the newest first. */
  function Unwind(f: Frame, tape: nat -> Tick, at: nat): Frame
    decreases |f.guards|
  {
    if f.guards == [] then f.(done := true) else Unwind(DropLast(f, tape(at)), tape, at + 1)
  }

  /** The position of the running span; a handler runs one at a time. */
  function SpanAt(guards: seq<Guard>): (i: nat)
    ensures i <= |guards| && (i < |guards| ==> guards[i].SpanGuard?)
    ensures forall k | 0 <= k < i :: guards[k].ScratchGuard?
  {
    if guards == [] || guards[0].SpanGuard? then 0 else 1 + SpanAt(guards[1..])
  }

  function Perform(f: Frame, step: Step, tape: nat -> Tick, at: nat): Frame {
    var tick := tape(at);
    var now := f.now + tick.before;
    match step
    case Begin(name) => f.(now := now, guards := f.guards + [SpanGuard(name, now)])
    case End =>
      var i := SpanAt(f.guards);
      if i == |f.guards| then f
      else
        var rest := f.guards[..i] + f.guards[i + 1..];
        f.(now := now, guards := rest,
           records := f.records + [Record(f.guards[i].name, f.guards[i].started, now, HasSpan(rest))])
    case Work => if tick.fails then Unwind(f.(now := now), tape, at + 1) else f.(now := now)
    case MakeScratch => f.(now := now, guards := f.guards + [ScratchGuard])
    case DropScratch =>
      if f.guards == [] || f.guards[|f.guards| - 1].SpanGuard? then f else DropLast(f, tick)
  }

  /** A run of a handler: to its end, or to its first failure. Each step reads its own part of the tape. */
  function Run(f: Frame, steps: seq<Step>, tape: nat -> Tick, at: nat): Frame
    decreases |steps|
  {
    if steps == [] || f.done then f
    else Run(Perform(f, steps[0], tape, at), steps[1..], tape, at + 1)
  }

  /** A request that arrives at `arrival` and enters its handler at `entered`: the body-read stage. */
  function Entered(arrival: nat, entered: nat): Frame
    requires arrival <= entered
  {
    Frame(entered, [], [Record("http_body_read_us", arrival, entered, false)], false)
  }

  // ----- the handlers -----

  /** A stage around something that may fail. */
  function StageOf(name: string): seq<Step> {
    [Begin(name), Work, End]
  }

  /** Reading the request: the body, its JSON, the challenge in it. */
  const REQUEST: seq<Step> := [Work] + StageOf("json_deserialize_us") + StageOf("nonce_validate_us")

  /** Up to the extended PCR, the lock held and the scratch directory made. */
  const CYCLE: seq<Step> :=
    StageOf("lock_wait_us") + [Begin("scratch_new_us"), Work, MakeScratch, End] + StageOf("measure_and_extend_us")

  const QUOTE: seq<Step> :=
    StageOf("nonce_validate_us") + CYCLE + [Work] + StageOf("ensure_ak_us") + StageOf("create_quote_us")

  const FINISH: seq<Step> := [Work, DropScratch] + StageOf("serialize_us")

  const INFORMATION_TPM: seq<Step> := CYCLE + StageOf("ensure_ak_us") + FINISH

  const QUOTE_TPM: seq<Step> := REQUEST + QUOTE + [Work] + StageOf("ak_pubkey_us") + FINISH

  const ATTESTATION_ALL: seq<Step> :=
    REQUEST + QUOTE + [Work] + StageOf("tdx_report_us") + [Work] + StageOf("ak_pubkey_us") + FINISH

  /** The steps of `verify_all` before the quote is checked. */
  const BEFORE_QUOTE: seq<Step> :=
    [Work] + StageOf("json_deserialize_us") + [Work] + StageOf("report_decode_us") + StageOf("tdx_verify_us")

  /** The scratch directory of `verify_quote` lives and dies inside `tpm_verify_us`. */
  const VERIFY_QUOTE: seq<Step> := [Begin("tpm_verify_us"), Work, MakeScratch, Work, DropScratch, End]

  const VERIFY_ALL: seq<Step> := BEFORE_QUOTE + VERIFY_QUOTE + StageOf("serialize_us")

  // ----- what keeps stages apart -----

  /** One stage at a time: none begins before the last one has ended. */
  predicate OneAtATime(steps: seq<Step>, open: bool) {
    if steps == [] then true
    else
      match steps[0]
      case Begin(_) => !open && OneAtATime(steps[1..], true)
      case End => open && OneAtATime(steps[1..], false)
      case _ => OneAtATime(steps[1..], open)
  }

  /** In addition, nothing leaves while a scratch directory made in the running stage exists. */
  predicate Flat(steps: seq<Step>, open: bool, made: bool) {
    if steps == [] then true
    else
      match steps[0]
      case Begin(_) => !open && Flat(steps[1..], true, false)
      case End => open && Flat(steps[1..], false, false)
      case Work => !made && Flat(steps[1..], open, made)
      case MakeScratch => Flat(steps[1..], open, open)
      case DropScratch => !open && Flat(steps[1..], open, made)
  }

  lemma {:induction false} FlatIsOneAtATime(steps: seq<Step>, open: bool, made: bool)
    requires Flat(steps, open, made)
    ensures OneAtATime(steps, open)
  {
    if steps != [] {
      match steps[0] {
        case Begin(_) => FlatIsOneAtATime(steps[1..], true, false);
        case End => FlatIsOneAtATime(steps[1..], false, false);
        case Work => FlatIsOneAtATime(steps[1..], open, made);
        case MakeScratch => FlatIsOneAtATime(steps[1..], open, open);
        case DropScratch => FlatIsOneAtATime(steps[1..], open, made);
      }
    }
  }

  /** The samples that are not nested follow one another between `lo` and `hi`. */
  predicate Chained(records: seq<Record>, lo: nat, hi: nat) {
    if records == [] then lo <= hi
    else
      var n := |records| - 1;
      var r := records[n];
      if r.nested then r.from <= r.to && Chained(records[..n], lo, hi)
      else r.from <= r.to <= hi && Chained(records[..n], lo, r.from)
  }

  predicate Single(guards: seq<Guard>) {
    forall i, j | 0 <= i < j < |guards| :: guards[i].ScratchGuard? || guards[j].ScratchGuard?
  }

  /** Time up to here is shared out; a running stage has not been given its share yet. */
  function Settled(f: Frame): nat {
    var i := SpanAt(f.guards);
    if i < |f.guards| then f.guards[i].started else f.now
  }

  predicate NestedAreDrops(records: seq<Record>) {
    forall i | 0 <= i < |records| && records[i].nested :: records[i].name == SCRATCH_DROP
  }

  predicate Inv(f: Frame, arrival: nat) {
    && Single(f.guards) && Settled(f) <= f.now
    && Chained(f.records, arrival, Settled(f)) && NestedAreDrops(f.records)
  }

  lemma {:induction false} ChainedLonger(records: seq<Record>, lo: nat, hi: nat, later: nat)
    requires Chained(records, lo, hi) && hi <= later
    ensures Chained(records, lo, later)
  {
    if records != [] && records[|records| - 1].nested {
      ChainedLonger(records[..|records| - 1], lo, hi, later);
    }
  }

  lemma ChainedMore(records: seq<Record>, lo: nat, hi: nat, r: Record)
    requires Chained(records, lo, hi) && r.from <= r.to
    ensures r.nested ==> Chained(records + [r], lo, hi)
    ensures !r.nested && hi <= r.from ==> Chained(records + [r], lo, r.to)
  {
    assert (records + [r])[..|records|] == records;
    if !r.nested && hi <= r.from {
      ChainedLonger(records, lo, hi, r.from);
    }
  }

  lemma SpanAtOf(guards: seq<Guard>, i: nat)
    requires Single(guards) && i < |guards| && guards[i].SpanGuard?
    ensures SpanAt(guards) == i
  {
    hide SpanAt;
  }

  /** Without its last guard, a stack has the same running span, or none if that was it. */
  lemma SpanBelow(guards: seq<Guard>)
    requires Single(guards) && guards != []
    ensures
      var n := |guards| - 1;
      var rest := guards[..n];
      && Single(rest) && (HasSpan(rest) <==> SpanAt(rest) < n)
      && (guards[n].SpanGuard? ==> SpanAt(guards) == n && SpanAt(rest) == n)
      && (guards[n].ScratchGuard? && HasSpan(rest) ==> SpanAt(guards) == SpanAt(rest))
      && (guards[n].ScratchGuard? && !HasSpan(rest) ==> SpanAt(guards) == n + 1)
  {
    hide SpanAt;
    var n := |guards| - 1;
    var rest := guards[..n];
    assert forall i | 0 <= i < n :: rest[i] == guards[i];
    if guards[n].SpanGuard? {
      SpanAtOf(guards, n);
    } else if SpanAt(rest) < n {
      SpanAtOf(guards, SpanAt(rest));
    }
  }

  lemma DropLastKeeps(f: Frame, tick: Tick, arrival: nat)
    requires Inv(f, arrival) && f.guards != []
    ensures Inv(DropLast(f, tick), arrival)
  {
    var n, after := |f.guards| - 1, DropLast(f, tick);
    var r := after.records[|f.records|];
    assert after.records == f.records + [r];
    SpanBelow(f.guards);
    assert SpanAt(f.guards[..n]) < n ==> f.guards[..n][SpanAt(f.guards[..n])] == f.guards[SpanAt(f.guards[..n])];
    hide Chained, Single, SpanAt, HasSpan;
    ChainedMore(f.records, arrival, Settled(f), r);
  }

  lemma {:induction false} UnwindKeeps(f: Frame, tape: nat -> Tick, at: nat, arrival: nat)
    requires Inv(f, arrival)
    ensures Inv(Unwind(f, tape, at), arrival) && Unwind(f, tape, at).guards == []
    ensures f.now <= Unwind(f, tape, at).now && Unwind(f, tape, at).done
    decreases |f.guards|
  {
    if f.guards != [] {
      DropLastKeeps(f, tape(at), arrival);
      UnwindKeeps(DropLast(f, tape(at)), tape, at + 1, arrival);
    }
  }

  lemma SpanRemoved(guards: seq<Guard>)
    requires Single(guards) && SpanAt(guards) < |guards|
    ensures
      var i := SpanAt(guards);
      var rest := guards[..i] + guards[i + 1..];
      Single(rest) && !HasSpan(rest) && SpanAt(rest) == |rest|
  {
    var i := SpanAt(guards);
    var rest := guards[..i] + guards[i + 1..];
    assert forall k | 0 <= k < |rest| :: rest[k] == if k < i then guards[k] else guards[k + 1];
    assert forall k | 0 <= k < |guards| && k != i :: guards[k].ScratchGuard?;
  }

  lemma GuardAdded(guards: seq<Guard>, g: Guard)
    requires Single(guards) && (g.ScratchGuard? || !HasSpan(guards))
    ensures Single(guards + [g]) && (HasSpan(guards + [g]) <==> HasSpan(guards) || g.SpanGuard?)
    ensures HasSpan(guards) <==> SpanAt(guards) < |guards|
    ensures g.SpanGuard? ==> SpanAt(guards + [g]) == |guards|
    ensures g.ScratchGuard? ==> SpanAt(guards + [g]) == if HasSpan(guards) then SpanAt(guards) else |guards| + 1
  {
    hide SpanAt;
    var more := guards + [g];
    assert more[|guards|] == g && forall k | 0 <= k < |guards| :: more[k] == guards[k];
    if HasSpan(guards) {
      assert more[SpanAt(guards)].SpanGuard?;
    }
  }

  lemma EndKeeps(f: Frame, tape: nat -> Tick, at: nat, arrival: nat)
    requires Inv(f, arrival)
    ensures
      var next := Perform(f, End, tape, at);
      Inv(next, arrival) && !HasSpan(next.guards) && next.done == f.done && f.now <= next.now
  {
    var i := SpanAt(f.guards);
    if i < |f.guards| {
      var rest := f.guards[..i] + f.guards[i + 1..];
      var now := f.now + tape(at).before;
      var r := Record(f.guards[i].name, f.guards[i].started, now, false);
      SpanRemoved(f.guards);
      hide Chained, Single, SpanAt, HasSpan;
      ChainedMore(f.records, arrival, f.guards[i].started, r);
      assert Perform(f, End, tape, at) == Frame(now, rest, f.records + [r], f.done);
    } else {
      assert !HasSpan(f.guards);
    }
  }

  lemma AddKeeps(f: Frame, step: Step, tape: nat -> Tick, at: nat, arrival: nat)
    requires Inv(f, arrival) && (step.MakeScratch? || (step.Begin? && !HasSpan(f.guards)))
    ensures
      var next := Perform(f, step, tape, at);
      && Inv(next, arrival) && next.done == f.done && f.now <= next.now
      && (HasSpan(next.guards) <==> HasSpan(f.guards) || step.Begin?)
  {
    var next := Perform(f, step, tape, at);
    GuardAdded(f.guards, next.guards[|f.guards|]);
    hide Chained, Single, SpanAt, HasSpan;
    ChainedLonger(f.records, arrival, Settled(f), Settled(next));
  }

  /** The running time of a handler is settled stage by stage, whatever happens. */
  lemma {:induction false} RunKeeps(f: Frame, steps: seq<Step>, tape: nat -> Tick, at: nat, arrival: nat)
    requires Inv(f, arrival) && (!f.done ==> OneAtATime(steps, HasSpan(f.guards)))
    ensures Inv(Run(f, steps, tape, at), arrival) && f.now <= Run(f, steps, tape, at).now
    decreases |steps|
  {
    hide Inv, HasSpan;
    if steps != [] && !f.done {
      var next := Perform(f, steps[0], tape, at);
      match steps[0] {
        case Begin(_) => AddKeeps(f, steps[0], tape, at, arrival);
        case MakeScratch => AddKeeps(f, steps[0], tape, at, arrival);
        case End => EndKeeps(f, tape, at, arrival);
        case Work => WorkKeeps(f, tape, at, arrival);
        case DropScratch => DropKeeps(f, tape, at, arrival);
      }
      RunKeeps(next, steps[1..], tape, at + 1, arrival);
    }
  }

  lemma WorkKeeps(f: Frame, tape: nat -> Tick, at: nat, arrival: nat)
    requires Inv(f, arrival)
    ensures
      var next := Perform(f, Work, tape, at);
      && Inv(next, arrival) && f.now <= next.now
      && (next.done || (next.guards == f.guards && next.done == f.done))
  {
    var later := f.(now := f.now + tape(at).before);
    hide Chained, Single, SpanAt;
    ChainedLonger(f.records, arrival, Settled(f), Settled(later));
    UnwindKeeps(later, tape, at + 1, arrival);
  }

  lemma DropKeeps(f: Frame, tape: nat -> Tick, at: nat, arrival: nat)
    requires Inv(f, arrival)
    ensures
      var next := Perform(f, DropScratch, tape, at);
      && Inv(next, arrival) && f.now <= next.now
      && next.done == f.done && (HasSpan(next.guards) <==> HasSpan(f.guards))
  {
    if f.guards != [] {
      DropLastKeeps(f, tape(at), arrival);
      var n := |f.guards| - 1;
      assert forall i | 0 <= i < n :: f.guards[..n][i] == f.guards[i];
    }
  }

  // ----- no stage inside another -----

  predicate NoneNested(records: seq<Record>) {
    forall i | 0 <= i < |records| :: !records[i].nested
  }

  /** A running span is the newest guard: the next to be dropped. */
  predicate SpanOnTop(guards: seq<Guard>) {
    HasSpan(guards) ==> guards[|guards| - 1].SpanGuard?
  }

  lemma {:induction false} UnwindNestsNothing(f: Frame, tape: nat -> Tick, at: nat)
    requires Single(f.guards) && SpanOnTop(f.guards) && NoneNested(f.records)
    ensures NoneNested(Unwind(f, tape, at).records)
    decreases |f.guards|
  {
    if f.guards != [] {
      var n := |f.guards| - 1;
      SpanBelow(f.guards);
      assert !HasSpan(f.guards[..n]) by {
        assert forall i | 0 <= i < n :: f.guards[..n][i] == f.guards[i];
      }
      UnwindNestsNothing(DropLast(f, tape(at)), tape, at + 1);
    }
  }

  /** In a flat handler no sample is taken inside a running stage, on no way out. */
  lemma {:induction false} FlatRunsNestNothing(
    f: Frame, steps: seq<Step>, made: bool, tape: nat -> Tick, at: nat, arrival: nat)
    requires Inv(f, arrival) && NoneNested(f.records)
    requires !f.done ==> Flat(steps, HasSpan(f.guards), made) && (made || SpanOnTop(f.guards))
    ensures NoneNested(Run(f, steps, tape, at).records)
    decreases |steps|
  {
    hide Inv, HasSpan, SpanOnTop, NoneNested;
    if steps != [] && !f.done {
      var next := Perform(f, steps[0], tape, at);
      StepNestsNothing(f, steps[0], made, tape, at, arrival);
      match steps[0] {
        case Begin(_) =>
          AddKeeps(f, steps[0], tape, at, arrival);
          FlatRunsNestNothing(next, steps[1..], false, tape, at + 1, arrival);
        case MakeScratch =>
          AddKeeps(f, steps[0], tape, at, arrival);
          FlatRunsNestNothing(next, steps[1..], HasSpan(f.guards), tape, at + 1, arrival);
        case End =>
          EndKeeps(f, tape, at, arrival);
          FlatRunsNestNothing(next, steps[1..], false, tape, at + 1, arrival);
        case Work =>
          WorkKeeps(f, tape, at, arrival);
          FlatRunsNestNothing(next, steps[1..], made, tape, at + 1, arrival);
        case DropScratch =>
          DropKeeps(f, tape, at, arrival);
          FlatRunsNestNothing(next, steps[1..], made, tape, at + 1, arrival);
      }
    }
  }

  lemma StepNestsNothing(f: Frame, step: Step, made: bool, tape: nat -> Tick, at: nat, arrival: nat)
    requires Inv(f, arrival) && NoneNested(f.records) && (made || SpanOnTop(f.guards))
    requires step.Begin? || step.DropScratch? ==> !HasSpan(f.guards)
    requires step.Work? ==> !made
    ensures
      var next := Perform(f, step, tape, at);
      && NoneNested(next.records)
      && (!next.done ==> SpanOnTop(next.guards) || (step.MakeScratch? && HasSpan(f.guards))
                         || (made && (step.Work? || step.DropScratch?)))
  {
    match step {
      case Begin(_) =>
      case End =>
        if SpanAt(f.guards) < |f.guards| {
          SpanRemoved(f.guards);
        }
      case Work =>
        WorkKeeps(f, tape, at, arrival);
        UnwindNestsNothing(f.(now := f.now + tape(at).before), tape, at + 1);
      case MakeScratch =>
        GuardAdded(f.guards, ScratchGuard);
      case DropScratch =>
        if f.guards != [] {
          SpanBelow(f.guards);
        }
    }
  }

  // ----- blocks of steps -----

  /** Is a stage running after these steps? */
  predicate OpenAfter(steps: seq<Step>, open: bool) {
    if steps == [] then open
    else OpenAfter(steps[1..], if steps[0].Begin? then true else if steps[0].End? then false else open)
  }

  predicate FlatBlock(steps: seq<Step>) {
    Flat(steps, false, false) && !OpenAfter(steps, false)
  }

  predicate Block(steps: seq<Step>) {
    OneAtATime(steps, false) && !OpenAfter(steps, false)
  }

  lemma {:induction false} FlatAppend(a: seq<Step>, b: seq<Step>, open: bool, made: bool)
    requires Flat(a, open, made) && !OpenAfter(a, open) && FlatBlock(b) && (made ==> open)
    ensures Flat(a + b, open, made) && !OpenAfter(a + b, open)
  {
    if a == [] {
      assert a + b == b;
    } else {
      assert (a + b)[1..] == a[1..] + b && (a + b)[0] == a[0];
      match a[0] {
        case Begin(_) => FlatAppend(a[1..], b, true, false);
        case End => FlatAppend(a[1..], b, false, false);
        case Work => FlatAppend(a[1..], b, open, made);
        case MakeScratch => FlatAppend(a[1..], b, open, open);
        case DropScratch => FlatAppend(a[1..], b, open, made);
      }
    }
  }

  lemma FlatBlocksJoin(a: seq<Step>, b: seq<Step>)
    requires FlatBlock(a) && FlatBlock(b)
    ensures FlatBlock(a + b)
  {
    FlatAppend(a, b, false, false);
  }

  lemma {:induction false} BlocksJoin(a: seq<Step>, b: seq<Step>, open: bool)
    requires OneAtATime(a, open) && !OpenAfter(a, open) && Block(b)
    ensures OneAtATime(a + b, open) && !OpenAfter(a + b, open)
  {
    if a == [] {
      assert a + b == b;
    } else {
      assert (a + b)[1..] == a[1..] + b && (a + b)[0] == a[0];
      BlocksJoin(a[1..], b, if a[0].Begin? then true else if a[0].End? then false else open);
    }
  }

  lemma StageIsFlat(name: string)
    ensures FlatBlock(StageOf(name))
  {
    var none: seq<Step> := [];
    var s1, s2 := [Work, End], [End];
    assert StageOf(name)[1..] == s1 && s1[1..] == s2 && s2[1..] == none;
    assert FlatFrom(s2, true) && FlatFrom(s1, true);
  }

  predicate FlatFrom(steps: seq<Step>, open: bool) {
    Flat(steps, open, false) && !OpenAfter(steps, open)
  }

  lemma SmallBlocksAreFlat()
    ensures FlatBlock([Work]) && FlatBlock([Work, DropScratch])
    ensures FlatBlock([Begin("scratch_new_us"), Work, MakeScratch, End])
  {
    var none: seq<Step> := [];
    var drop, make, end := [DropScratch], [MakeScratch, End], [End];
    assert [Work][1..] == none && drop[1..] == none && [Work, DropScratch][1..] == drop;
    assert FlatFrom(none, false) && FlatFrom(drop, false);
    var all := [Begin("scratch_new_us"), Work, MakeScratch, End];
    var work := [Work, MakeScratch, End];
    assert all[1..] == work && work[1..] == make && make[1..] == end && end[1..] == none;
    assert Flat(end, true, true) && !OpenAfter(end, true);
    assert FlatFrom(make, true) && FlatFrom(work, true);
  }

  lemma CommonBlocksAreFlat()
    ensures FlatBlock(REQUEST) && FlatBlock(CYCLE) && FlatBlock(QUOTE) && FlatBlock(FINISH)
  {
    hide FlatBlock, StageOf;
    SmallBlocksAreFlat();
    StageIsFlat("json_deserialize_us");
    StageIsFlat("nonce_validate_us");
    FlatBlocksJoin([Work], StageOf("json_deserialize_us"));
    FlatBlocksJoin([Work] + StageOf("json_deserialize_us"), StageOf("nonce_validate_us"));
    StageIsFlat("lock_wait_us");
    StageIsFlat("measure_and_extend_us");
    var scratch := [Begin("scratch_new_us"), Work, MakeScratch, End];
    FlatBlocksJoin(StageOf("lock_wait_us"), scratch);
    FlatBlocksJoin(StageOf("lock_wait_us") + scratch, StageOf("measure_and_extend_us"));
    StageIsFlat("ensure_ak_us");
    StageIsFlat("create_quote_us");
    FlatBlocksJoin(StageOf("nonce_validate_us"), CYCLE);
    FlatBlocksJoin(StageOf("nonce_validate_us") + CYCLE, [Work]);
    FlatBlocksJoin(StageOf("nonce_validate_us") + CYCLE + [Work], StageOf("ensure_ak_us"));
    FlatBlocksJoin(StageOf("nonce_validate_us") + CYCLE + [Work] + StageOf("ensure_ak_us"), StageOf("create_quote_us"));
    StageIsFlat("serialize_us");
    FlatBlocksJoin([Work, DropScratch], StageOf("serialize_us"));
  }

  /** The three handlers that measure are flat. */
  lemma MeasuringHandlersAreFlat()
    ensures FlatBlock(INFORMATION_TPM) && FlatBlock(QUOTE_TPM) && FlatBlock(ATTESTATION_ALL)
  {
    CommonBlocksAreFlat();
    SmallBlocksAreFlat();
    StageIsFlat("ensure_ak_us");
    StageIsFlat("ak_pubkey_us");
    StageIsFlat("tdx_report_us");
    hide FlatBlock, StageOf, REQUEST, CYCLE, QUOTE, FINISH;
    FlatBlocksJoin(CYCLE, StageOf("ensure_ak_us"));
    FlatBlocksJoin(CYCLE + StageOf("ensure_ak_us"), FINISH);
    var quote := REQUEST + QUOTE;
    FlatBlocksJoin(REQUEST, QUOTE);
    FlatBlocksJoin(quote, [Work]);
    FlatBlocksJoin(quote + [Work], StageOf("ak_pubkey_us"));
    FlatBlocksJoin(quote + [Work] + StageOf("ak_pubkey_us"), FINISH);
    var report := quote + [Work] + StageOf("tdx_report_us");
    FlatBlocksJoin(quote + [Work], StageOf("tdx_report_us"));
    FlatBlocksJoin(report, [Work]);
    FlatBlocksJoin(report + [Work], StageOf("ak_pubkey_us"));
    FlatBlocksJoin(report + [Work] + StageOf("ak_pubkey_us"), FINISH);
  }

  lemma FlatBlockIsBlock(steps: seq<Step>)
    requires FlatBlock(steps)
    ensures Block(steps)
  {
    FlatIsOneAtATime(steps, false, false);
  }

  lemma VerifyQuoteIsBlock()
    ensures Block(VERIFY_QUOTE)
  {
    var none: seq<Step> := [];
    var s5, s4, s3 := [End], [DropScratch, End], [Work, DropScratch, End];
    var s2, s1 := [MakeScratch, Work, DropScratch, End], [Work, MakeScratch, Work, DropScratch, End];
    assert s5[1..] == none && s4[1..] == s5 && s3[1..] == s4 && s2[1..] == s3 && s1[1..] == s2;
    assert VERIFY_QUOTE[1..] == s1;
    assert OneFrom(s5) && OneFrom(s4);
    assert OneFrom(s3) && OneFrom(s2);
    assert OneFrom(s1);
  }

  predicate OneFrom(steps: seq<Step>) {
    OneAtATime(steps, true) && !OpenAfter(steps, true)
  }

  /** `verify_all` runs one stage at a time, though a scratch directory is dropped inside one. */
  lemma VerifyAllIsBlock()
    ensures Block(VERIFY_ALL)
  {
    SmallBlocksAreFlat();
    StageIsFlat("json_deserialize_us");
    StageIsFlat("report_decode_us");
    StageIsFlat("tdx_verify_us");
    StageIsFlat("serialize_us");
    VerifyQuoteIsBlock();
    hide FlatBlock, StageOf;
    var a := [Work] + StageOf("json_deserialize_us");
    FlatBlocksJoin([Work], StageOf("json_deserialize_us"));
    FlatBlocksJoin(a, [Work]);
    FlatBlocksJoin(a + [Work], StageOf("report_decode_us"));
    var b := a + [Work] + StageOf("report_decode_us") + StageOf("tdx_verify_us");
    FlatBlocksJoin(a + [Work] + StageOf("report_decode_us"), StageOf("tdx_verify_us"));
    FlatBlockIsBlock(b);
    FlatBlockIsBlock(StageOf("serialize_us"));
    BlocksJoin(b, VERIFY_QUOTE, false);
    BlocksJoin(b + VERIFY_QUOTE, StageOf("serialize_us"), false);
  }

  // ----- the sums -----

  predicate Ordered(records: seq<Record>) {
    forall i | 0 <= i < |records| :: records[i].from <= records[i].to
  }

  lemma {:induction false} ChainedIsOrdered(records: seq<Record>, lo: nat, hi: nat)
    requires Chained(records, lo, hi)
    ensures Ordered(records) && lo <= hi
  {
    if records != [] {
      var n := |records| - 1;
      ChainedIsOrdered(records[..n], lo, if records[n].nested then hi else records[n].from);
      assert forall i | 0 <= i < n :: records[..n][i] == records[i];
    }
  }

  /** The samples the stage buckets were given. */
  function StageSamples(records: seq<Record>): seq<Sample>
    requires Ordered(records)
  {
    seq(|records|, i requires 0 <= i < |records| =>
      (records[i].name, Microseconds(records[i].from, records[i].to)))
  }

  function NestedTime(records: seq<Record>): nat
    requires Ordered(records)
  {
    if records == [] then 0
    else
      var n := |records| - 1;
      NestedTime(records[..n]) + if records[n].nested then Microseconds(records[n].from, records[n].to) else 0
  }

  /** What the stages took, apart from those inside others, fits between the first and the last. */
  lemma {:induction false} SharedOut(records: seq<Record>, lo: nat, hi: nat)
    requires Chained(records, lo, hi)
    ensures Ordered(records) && 1000 * (Total(StageSamples(records)) - NestedTime(records)) <= hi - lo
  {
    ChainedIsOrdered(records, lo, hi);
    if records != [] {
      var n := |records| - 1;
      var r := records[n];
      SharedOut(records[..n], lo, if r.nested then hi else r.from);
      assert StageSamples(records)[..n] == StageSamples(records[..n]);
      assert 1000 * Microseconds(r.from, r.to) <= r.to - r.from;
    }
  }

  lemma {:induction false} NestedTimeIsDropTime(records: seq<Record>)
    requires Ordered(records) && NestedAreDrops(records)
    ensures NestedTime(records) <= SumOf(StageSamples(records), SCRATCH_DROP)
    ensures NoneNested(records) ==> NestedTime(records) == 0
  {
    if records != [] {
      var n := |records| - 1;
      assert forall i | 0 <= i < n :: records[..n][i] == records[i];
      NestedTimeIsDropTime(records[..n]);
      assert StageSamples(records)[..n] == StageSamples(records[..n]);
    }
  }

  /** Samples that are not nested are pairwise disjoint, in the order they were recorded. */
  lemma {:induction false} StagesAreDisjoint(records: seq<Record>, lo: nat, hi: nat, i: nat, j: nat)
    requires Chained(records, lo, hi) && i < j < |records| && !records[i].nested && !records[j].nested
    ensures lo <= records[i].from <= records[i].to <= records[j].from <= records[j].to <= hi
  {
    var n := |records| - 1;
    var r := records[n];
    var top := if r.nested then hi else r.from;
    if j < n {
      StagesAreDisjoint(records[..n], lo, top, i, j);
    } else {
      WithinBounds(records[..n], lo, top, i);
    }
  }

  lemma {:induction false} WithinBounds(records: seq<Record>, lo: nat, hi: nat, i: nat)
    requires Chained(records, lo, hi) && i < |records| && !records[i].nested
    ensures lo <= records[i].from <= records[i].to <= hi
  {
    var n := |records| - 1;
    var r := records[n];
    var top := if r.nested then hi else r.from;
    ChainedIsOrdered(records[..n], lo, top);
    if i < n {
      WithinBounds(records[..n], lo, top, i);
    }
  }

  // ----- the theorems -----

  function Outcome(steps: seq<Step>, tape: nat -> Tick, arrival: nat, entered: nat): Frame
    requires arrival <= entered
  {
    Run(Entered(arrival, entered), steps, tape, 0)
  }

  lemma OutcomeIsSettled(steps: seq<Step>, tape: nat -> Tick, arrival: nat, entered: nat)
    requires arrival <= entered && Block(steps)
    ensures
      var f := Outcome(steps, tape, arrival, entered);
      && Inv(f, arrival) && Ordered(f.records) && Chained(f.records, arrival, f.now)
      && 1000 * (Total(StageSamples(f.records)) - NestedTime(f.records)) <= f.now - arrival
  {
    var f := Outcome(steps, tape, arrival, entered);
    EnteredIsSettled(arrival, entered);
    RunKeeps(Entered(arrival, entered), steps, tape, 0, arrival);
    ChainedLonger(f.records, arrival, Settled(f), f.now);
    SharedOut(f.records, arrival, f.now);
  }

  lemma EnteredIsSettled(arrival: nat, entered: nat)
    requires arrival <= entered
    ensures Inv(Entered(arrival, entered), arrival) && !HasSpan(Entered(arrival, entered).guards)
    ensures NoneNested(Entered(arrival, entered).records)
  {
    var r := Record("http_body_read_us", arrival, entered, false);
    var none: seq<Record> := [];
    assert [r][..0] == none && Chained(none, arrival, arrival);
  }

  /** On `/information_tpm`, `/quote_tpm` and `/attestation_all` the stages never overlap, so
      they never add up to more than the whole request: whatever fails, and however long it takes. */
  lemma StagesFitTheRequest(steps: seq<Step>, tape: nat -> Tick, arrival: nat, entered: nat, end: nat)
    requires steps == INFORMATION_TPM || steps == QUOTE_TPM || steps == ATTESTATION_ALL
    requires arrival <= entered <= end && Outcome(steps, tape, arrival, entered).now <= end
    requires (end - arrival) / 1000 < U64
    ensures
      var records := Outcome(steps, tape, arrival, entered).records;
      && Chained(records, arrival, end) && NoneNested(records) && Ordered(records)
      && Total(StageSamples(records)) <= Microseconds(arrival, end)
  {
    var f := Outcome(steps, tape, arrival, entered);
    MeasuringHandlersAreFlat();
    FlatBlockIsBlock(steps);
    hide INFORMATION_TPM, QUOTE_TPM, ATTESTATION_ALL, OneAtATime, Chained, HasSpan, Run, StageSamples, NestedTime;
    hide Total, SumOf, Settled, Single, NestedAreDrops, Ordered;
    OutcomeIsSettled(steps, tape, arrival, entered);
    EnteredIsSettled(arrival, entered);
    FlatRunsNestNothing(Entered(arrival, entered), steps, false, tape, 0, arrival);
    NestedTimeIsDropTime(f.records);
    ChainedLonger(f.records, arrival, f.now, end);
  }

  /** So the unattributed time such a request reports is never negative. */
  lemma NothingIsAttributedTwice(steps: seq<Step>, tape: nat -> Tick, arrival: nat, entered: nat, end: nat)
    requires steps == INFORMATION_TPM || steps == QUOTE_TPM || steps == ATTESTATION_ALL
    requires arrival <= entered <= end && Outcome(steps, tape, arrival, entered).now <= end
    requires (end - arrival) / 1000 < U64 / 2
    ensures
      var records := Outcome(steps, tape, arrival, entered).records;
      && Ordered(records) && Total(StageSamples(records)) < U64
      && var residual := Residual(Microseconds(arrival, end), Total(StageSamples(records)));
      && residual.Some? && residual.value >= 0
  {
    hide INFORMATION_TPM, QUOTE_TPM, ATTESTATION_ALL, Outcome, Chained, NoneNested, Total, StageSamples, Residual;
    StagesFitTheRequest(steps, tape, arrival, entered, end);
    var records := Outcome(steps, tape, arrival, entered).records;
    ResidualIsTheDifference(Microseconds(arrival, end), Total(StageSamples(records)));
  }

  /** On `/verify_all` dropping the scratch directory is counted twice, and nothing else is. */
  lemma OnlyTheDropCountsTwice(tape: nat -> Tick, arrival: nat, entered: nat, end: nat)
    requires arrival <= entered <= end && Outcome(VERIFY_ALL, tape, arrival, entered).now <= end
    requires (end - arrival) / 1000 < U64 / 2
    ensures
      var records := Outcome(VERIFY_ALL, tape, arrival, entered).records;
      && Ordered(records)
      && var (e2e, total) := (Microseconds(arrival, end), Total(StageSamples(records)));
      && total <= e2e + SumOf(StageSamples(records), SCRATCH_DROP)
      && (total < U64 / 2 ==> Residual(e2e, total) == Some(e2e - total))
  {
    var f := Outcome(VERIFY_ALL, tape, arrival, entered);
    VerifyAllIsBlock();
    OutcomeIsSettled(VERIFY_ALL, tape, arrival, entered);
    NestedTimeIsDropTime(f.records);
  }
}
