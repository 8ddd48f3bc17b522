/** Runs of handlers step by step: when the stages of `verify_all` overlap, and a run of `information_tpm`. */
module StageRuns {
  import opened Metrics
  import opened Stages

  // ----- when stages of `verify_all` overlap -----

  /** A scratch directory is made and dropped inside a stage, and only there. */
  predicate Inner(steps: seq<Step>, open: bool, made: bool) {
    if steps == [] then true
    else
      match steps[0]
      case Begin(name) => !open && name != SCRATCH_DROP && Inner(steps[1..], true, false)
      case End => open && !made && Inner(steps[1..], false, false)
      case Work => Inner(steps[1..], open, made)
      case MakeScratch => open && !made && Inner(steps[1..], open, true)
      case DropScratch => made && Inner(steps[1..], open, false)
  }

  /** The guards of such a handler: the running stage, and the directory made in it. */
  predicate Shape(guards: seq<Guard>, open: bool, made: bool) {
    && |guards| == (if open then 1 else 0) + (if made then 1 else 0)
    && (open ==> guards[0].SpanGuard? && guards[0].name != SCRATCH_DROP)
    && (made ==> open && guards[1].ScratchGuard?)
  }

  /** A sample is taken inside a stage exactly if it is that of a dropped directory. */
  predicate DropsAreNested(records: seq<Record>) {
    forall i | 0 <= i < |records| :: records[i].nested <==> records[i].name == SCRATCH_DROP
  }

  lemma DropLastNests(f: Frame, open: bool, made: bool, tick: Tick)
    requires Shape(f.guards, open, made) && open && DropsAreNested(f.records)
    ensures
      var g := DropLast(f, tick);
      Shape(g.guards, made, false) && DropsAreNested(g.records) && g.done == f.done
  {
    var n := |f.guards| - 1;
    assert made ==> f.guards[..n][0] == f.guards[0];
  }

  lemma UnwindNests(f: Frame, open: bool, made: bool, tape: nat -> Tick, at: nat)
    requires Shape(f.guards, open, made) && DropsAreNested(f.records)
    ensures DropsAreNested(Unwind(f, tape, at).records) && Unwind(f, tape, at).done
    decreases open, made
  {
    if open {
      DropLastNests(f, open, made, tape(at));
      UnwindNests(DropLast(f, tape(at)), made, false, tape, at + 1);
    }
  }

  lemma EndNests(f: Frame, tape: nat -> Tick, at: nat)
    requires Shape(f.guards, true, false) && DropsAreNested(f.records)
    ensures
      var g := Perform(f, End, tape, at);
      Shape(g.guards, false, false) && DropsAreNested(g.records) && g.done == f.done
  {
    assert SpanAt(f.guards) == 0;
    assert f.guards[..0] + f.guards[1..] == [];
  }

  lemma {:induction false} InnerRunNests(f: Frame, steps: seq<Step>, open: bool, made: bool, tape: nat -> Tick, at: nat)
    requires !f.done ==> Shape(f.guards, open, made) && Inner(steps, open, made)
    requires DropsAreNested(f.records)
    ensures DropsAreNested(Run(f, steps, tape, at).records)
    decreases |steps|
  {
    hide DropsAreNested;
    if steps != [] && !f.done {
      var g := Perform(f, steps[0], tape, at);
      match steps[0] {
        case Begin(_) => InnerRunNests(g, steps[1..], true, false, tape, at + 1);
        case End =>
          EndNests(f, tape, at);
          InnerRunNests(g, steps[1..], false, false, tape, at + 1);
        case Work =>
          UnwindNests(f.(now := f.now + tape(at).before), open, made, tape, at + 1);
          InnerRunNests(g, steps[1..], open, made, tape, at + 1);
        case MakeScratch => InnerRunNests(g, steps[1..], open, true, tape, at + 1);
        case DropScratch =>
          DropLastNests(f, open, made, tape(at));
          InnerRunNests(g, steps[1..], open, false, tape, at + 1);
      }
    }
  }

  predicate InnerBlock(steps: seq<Step>) {
    Inner(steps, false, false) && !OpenAfter(steps, false)
  }

  lemma {:induction false} InnerAppend(a: seq<Step>, b: seq<Step>, open: bool, made: bool)
    requires Inner(a, open, made) && !OpenAfter(a, open) && InnerBlock(b) && (made ==> open)
    ensures Inner(a + b, open, made) && !OpenAfter(a + b, open)
  {
    if a == [] {
      assert a + b == b;
    } else {
      assert (a + b)[1..] == a[1..] + b && (a + b)[0] == a[0];
      match a[0] {
        case Begin(_) => InnerAppend(a[1..], b, true, false);
        case End => InnerAppend(a[1..], b, false, false);
        case Work => InnerAppend(a[1..], b, open, made);
        case MakeScratch => InnerAppend(a[1..], b, open, true);
        case DropScratch => InnerAppend(a[1..], b, open, false);
      }
    }
  }

  lemma InnerBlocksJoin(a: seq<Step>, b: seq<Step>)
    requires InnerBlock(a) && InnerBlock(b)
    ensures InnerBlock(a + b)
  {
    InnerAppend(a, b, false, false);
  }

  predicate InnerFrom(steps: seq<Step>, made: bool) {
    Inner(steps, true, made) && !OpenAfter(steps, true)
  }

  lemma StageIsInner(name: string)
    requires name != SCRATCH_DROP
    ensures InnerBlock(StageOf(name))
  {
    var none: seq<Step> := [];
    var s1, s2 := [Work, End], [End];
    assert StageOf(name)[1..] == s1 && s1[1..] == s2 && s2[1..] == none;
    assert InnerFrom(s2, false) && InnerFrom(s1, false);
  }

  lemma WorkIsInner()
    ensures InnerBlock([Work])
  {
    var none: seq<Step> := [];
    assert [Work][1..] == none;
  }

  lemma VerifyQuoteIsInner()
    ensures InnerBlock(VERIFY_QUOTE)
  {
    var none: seq<Step> := [];
    var s5, s4, s3 := [End], [DropScratch, End], [Work, DropScratch, End];
    var s2, s1 := [MakeScratch, Work, DropScratch, End], [Work, MakeScratch, Work, DropScratch, End];
    assert s5[1..] == none && s4[1..] == s5 && s3[1..] == s4 && s2[1..] == s3 && s1[1..] == s2;
    assert VERIFY_QUOTE[1..] == s1;
    assert InnerFrom(s5, false) && InnerFrom(s4, true);
    assert InnerFrom(s3, true) && InnerFrom(s2, false);
    assert InnerFrom(s1, false);
    NotTheDrop("tpm_verify_us");
  }

  lemma NotTheDrop(name: string)
    requires |name| > 1 && (name[0] != 's' || name[1] != 'c')
    ensures name != SCRATCH_DROP
  {
  }

  lemma VerifyAllIsInner()
    ensures InnerBlock(VERIFY_ALL)
  {
    NotTheDrop("json_deserialize_us");
    NotTheDrop("report_decode_us");
    NotTheDrop("tdx_verify_us");
    NotTheDrop("serialize_us");
    StageIsInner("json_deserialize_us");
    StageIsInner("report_decode_us");
    StageIsInner("tdx_verify_us");
    StageIsInner("serialize_us");
    WorkIsInner();
    VerifyQuoteIsInner();
    hide InnerBlock, StageOf, VERIFY_QUOTE;
    var a := [Work] + StageOf("json_deserialize_us");
    InnerBlocksJoin([Work], StageOf("json_deserialize_us"));
    InnerBlocksJoin(a, [Work]);
    InnerBlocksJoin(a + [Work], StageOf("report_decode_us"));
    InnerBlocksJoin(a + [Work] + StageOf("report_decode_us"), StageOf("tdx_verify_us"));
    InnerBlocksJoin(BEFORE_QUOTE, VERIFY_QUOTE);
    InnerBlocksJoin(BEFORE_QUOTE + VERIFY_QUOTE, StageOf("serialize_us"));
  }

  /** Did the request get as far as a scratch directory? Then it dropped it, on whatever way out. */
  predicate DroppedScratch(records: seq<Record>) {
    exists i | 0 <= i < |records| :: records[i].name == SCRATCH_DROP
  }

  /** A drop is the one sample inside another stage. */
  lemma NestedAreDrops(tape: nat -> Tick, arrival: nat, entered: nat)
    requires arrival <= entered
    ensures
      var records := Outcome(VERIFY_ALL, tape, arrival, entered).records;
      DropsAreNested(records) && (NoneNested(records) <==> !DroppedScratch(records))
  {
    VerifyAllIsInner();
    NotTheDrop("http_body_read_us");
    assert DropsAreNested(Entered(arrival, entered).records);
    hide VERIFY_ALL;
    InnerRunNests(Entered(arrival, entered), VERIFY_ALL, false, false, tape, 0);
  }

  // ----- which requests make a directory -----

  /** Steps that make no directory, with stages that are not called like a drop. */
  predicate Bare(steps: seq<Step>) {
    forall k | 0 <= k < |steps| ::
      !steps[k].MakeScratch? && !steps[k].DropScratch? && (steps[k].Begin? ==> steps[k].name != SCRATCH_DROP)
  }

  /** No directory has been made so far. */
  predicate Clean(f: Frame) {
    && !DroppedScratch(f.records)
    && forall k | 0 <= k < |f.guards| :: f.guards[k].SpanGuard? && f.guards[k].name != SCRATCH_DROP
  }

  /** One of the steps fails. */
  predicate FailsIn(steps: seq<Step>, tape: nat -> Tick, at: nat) {
    exists k | 0 <= k < |steps| :: steps[k].Work? && tape(at + k).fails
  }

  lemma FailsInCons(steps: seq<Step>, tape: nat -> Tick, at: nat)
    requires steps != []
    ensures FailsIn(steps, tape, at) <==> (steps[0].Work? && tape(at).fails) || FailsIn(steps[1..], tape, at + 1)
  {
    var rest := steps[1..];
    assert forall k | 0 <= k < |rest| :: rest[k] == steps[k + 1] && at + 1 + k == at + (k + 1);
    assert forall k | 1 <= k < |steps| :: steps[k] == rest[k - 1] && at + k == at + 1 + (k - 1);
    if steps[0].Work? && tape(at).fails {
      assert tape(at + 0).fails;
    }
  }

  lemma {:induction false} UnwindIsClean(f: Frame, tape: nat -> Tick, at: nat)
    requires Clean(f)
    ensures Clean(Unwind(f, tape, at)) && Unwind(f, tape, at).done
    decreases |f.guards|
  {
    if f.guards != [] {
      UnwindIsClean(DropLast(f, tape(at)), tape, at + 1);
    }
  }

  lemma WorkIsClean(f: Frame, tape: nat -> Tick, at: nat)
    requires Clean(f) && !f.done
    ensures
      var g := Perform(f, Work, tape, at);
      Clean(g) && (g.done <==> tape(at).fails)
  {
    var later := f.(now := f.now + tape(at).before);
    assert Clean(later);
    hide Clean;
    UnwindIsClean(later, tape, at + 1);
  }

  lemma EndIsClean(f: Frame, tape: nat -> Tick, at: nat)
    requires Clean(f)
    ensures Clean(Perform(f, End, tape, at)) && Perform(f, End, tape, at).done == f.done
  {
    hide Unwind, DropLast, HasSpan;
    var i, g := SpanAt(f.guards), Perform(f, End, tape, at);
    if i < |f.guards| {
      assert f.guards[i].name != SCRATCH_DROP;
      var r := g.records[|f.records|];
      assert g.records == f.records + [r] && r.name != SCRATCH_DROP;
    }
  }

  lemma BeginIsClean(f: Frame, name: string, tape: nat -> Tick, at: nat)
    requires Clean(f) && name != SCRATCH_DROP
    ensures Clean(Perform(f, Begin(name), tape, at)) && Perform(f, Begin(name), tape, at).done == f.done
  {
    hide Unwind, DropLast, HasSpan, SpanAt;
  }

  lemma BareStepIsClean(f: Frame, step: Step, tape: nat -> Tick, at: nat)
    requires Clean(f) && Bare([step]) && !f.done
    ensures
      var g := Perform(f, step, tape, at);
      Clean(g) && (g.done <==> step.Work? && tape(at).fails)
  {
    assert [step][0] == step;
    hide Clean, Perform;
    match step {
      case Work => WorkIsClean(f, tape, at);
      case End => EndIsClean(f, tape, at);
      case Begin(name) => BeginIsClean(f, name, tape, at);
      case _ =>
    }
  }

  /** Such steps are left early exactly if one of them fails, and drop no directory either way. */
  lemma {:induction false} BareRunIsClean(f: Frame, steps: seq<Step>, tape: nat -> Tick, at: nat)
    requires Clean(f) && Bare(steps) && !f.done
    ensures
      var g := Run(f, steps, tape, at);
      Clean(g) && (g.done <==> FailsIn(steps, tape, at))
    decreases |steps|
  {
    if steps != [] {
      assert Bare([steps[0]]) && Bare(steps[1..]);
      FailsInCons(steps, tape, at);
      BareStepIsClean(f, steps[0], tape, at);
      hide Clean, Bare, FailsIn, Perform;
      var g := Perform(f, steps[0], tape, at);
      if !g.done {
        BareRunIsClean(g, steps[1..], tape, at + 1);
      }
    }
  }

  lemma {:induction false} UnwindDrops(f: Frame, tape: nat -> Tick, at: nat)
    requires DroppedScratch(f.records) || exists k | 0 <= k < |f.guards| :: f.guards[k].ScratchGuard?
    ensures DroppedScratch(Unwind(f, tape, at).records)
    decreases |f.guards|
  {
    if f.guards != [] {
      var n, g := |f.guards| - 1, DropLast(f, tape(at));
      if DroppedScratch(f.records) {
        var i :| 0 <= i < |f.records| && f.records[i].name == SCRATCH_DROP;
        assert g.records[i].name == SCRATCH_DROP;
      } else if f.guards[n].ScratchGuard? {
        assert g.records[|f.records|].name == SCRATCH_DROP;
      } else {
        var k :| 0 <= k < |f.guards| && f.guards[k].ScratchGuard?;
        assert g.guards[k].ScratchGuard?;
      }
      UnwindDrops(g, tape, at + 1);
    }
  }

  /** What has been recorded stays recorded. */
  lemma DropStays(f: Frame, step: Step, tape: nat -> Tick, at: nat)
    requires DroppedScratch(f.records)
    ensures DroppedScratch(Perform(f, step, tape, at).records)
  {
    var i :| 0 <= i < |f.records| && f.records[i].name == SCRATCH_DROP;
    var g := Perform(f, step, tape, at);
    if step.Work? {
      UnwindDrops(f.(now := f.now + tape(at).before), tape, at + 1);
    } else {
      assert g.records[i].name == SCRATCH_DROP;
    }
  }

  lemma {:induction false} DropStaysInRun(f: Frame, steps: seq<Step>, tape: nat -> Tick, at: nat)
    requires DroppedScratch(f.records)
    ensures DroppedScratch(Run(f, steps, tape, at).records)
    decreases |steps|
  {
    if steps != [] && !f.done {
      DropStays(f, steps[0], tape, at);
      hide Perform, DroppedScratch;
      DropStaysInRun(Perform(f, steps[0], tape, at), steps[1..], tape, at + 1);
    }
  }

  lemma DropIsRecorded(f: Frame, rest: seq<Step>, tape: nat -> Tick, at: nat)
    requires !f.done && f.guards != [] && f.guards[|f.guards| - 1].ScratchGuard?
    ensures DroppedScratch(Run(f, [DropScratch] + rest, tape, at).records)
  {
    var g := Perform(f, DropScratch, tape, at);
    assert g.records[|f.records|].name == SCRATCH_DROP;
    hide Perform, Run;
    RunStep(f, DropScratch, rest, tape, at);
    DropStaysInRun(g, rest, tape, at + 1);
  }

  /** A directory that is made for one piece of work is dropped behind it, or on the way out. */
  lemma MadeIsDropped(f: Frame, rest: seq<Step>, tape: nat -> Tick, at: nat)
    requires !f.done
    ensures DroppedScratch(Run(f, [MakeScratch] + ([Work] + ([DropScratch] + rest)), tape, at).records)
  {
    var g := Perform(f, MakeScratch, tape, at);
    assert !g.done && g.guards == f.guards + [ScratchGuard];
    hide Run, Perform;
    RunStep(f, MakeScratch, [Work] + ([DropScratch] + rest), tape, at);
    RunStep(g, Work, [DropScratch] + rest, tape, at + 1);
    WorkOverScratch(g, rest, tape, at + 1);
  }

  lemma WorkOverScratch(f: Frame, rest: seq<Step>, tape: nat -> Tick, at: nat)
    requires !f.done && f.guards != [] && f.guards[|f.guards| - 1].ScratchGuard?
    ensures DroppedScratch(Run(Perform(f, Work, tape, at), [DropScratch] + rest, tape, at + 1).records)
  {
    var later := f.(now := f.now + tape(at).before);
    assert Perform(f, Work, tape, at) == if tape(at).fails then Unwind(later, tape, at + 1) else later;
    hide Run, Perform, Unwind;
    if tape(at).fails {
      UnwindDrops(later, tape, at + 1);
      DropStaysInRun(Unwind(later, tape, at + 1), [DropScratch] + rest, tape, at + 1);
    } else {
      DropIsRecorded(later, rest, tape, at + 1);
    }
  }

  /** What `verify_all` does before its directory is there: six things that may fail. */
  const BEFORE_SCRATCH: seq<Step> := BEFORE_QUOTE + [Begin("tpm_verify_us"), Work]

  /**
   * One of them fails: reading the body, its JSON, the evidence block, decoding the report, the TDX
   * verdict, or making the directory.
   */
  predicate LeavesEarly(tape: nat -> Tick) {
    tape(0).fails || tape(2).fails || tape(4).fails || tape(6).fails || tape(9).fails || tape(12).fails
  }

  lemma BeforeScratchIsBare()
    ensures Bare(BEFORE_SCRATCH) && |BEFORE_SCRATCH| == 13
  {
    NotTheDrop("json_deserialize_us");
    NotTheDrop("report_decode_us");
    NotTheDrop("tdx_verify_us");
    NotTheDrop("tpm_verify_us");
  }

  lemma WorkBeforeScratch()
    ensures |BEFORE_SCRATCH| == 13
    ensures forall k | 0 <= k < 13 ::
              BEFORE_SCRATCH[k].Work? <==> k == 0 || k == 2 || k == 4 || k == 6 || k == 9 || k == 12
  {
  }

  lemma LeavesEarlyIsFailing(tape: nat -> Tick)
    ensures FailsIn(BEFORE_SCRATCH, tape, 0) <==> LeavesEarly(tape)
  {
    WorkBeforeScratch();
    hide BEFORE_SCRATCH;
    if LeavesEarly(tape) {
      var k := if tape(0).fails then 0 else if tape(2).fails then 2 else if tape(4).fails then 4
               else if tape(6).fails then 6 else if tape(9).fails then 9 else 12;
      assert BEFORE_SCRATCH[k].Work? && tape(0 + k).fails;
    }
    if FailsIn(BEFORE_SCRATCH, tape, 0) {
      var k :| 0 <= k < |BEFORE_SCRATCH| && BEFORE_SCRATCH[k].Work? && tape(0 + k).fails;
      assert tape(k).fails;
    }
  }

  lemma VerifyAllSplits()
    ensures VERIFY_ALL ==
            BEFORE_SCRATCH + ([MakeScratch] + ([Work] + ([DropScratch] + ([End] + StageOf("serialize_us")))))
  {
    hide StageOf, BEFORE_QUOTE;
  }

  /** `verify_all` drops a directory exactly if nothing fails before it is there. */
  lemma DropsExactly(tape: nat -> Tick, arrival: nat, entered: nat)
    requires arrival <= entered
    ensures DroppedScratch(Outcome(VERIFY_ALL, tape, arrival, entered).records) <==> !LeavesEarly(tape)
  {
    var f0, rest := Entered(arrival, entered), [End] + StageOf("serialize_us");
    assert Clean(f0) by {
      NotTheDrop("http_body_read_us");
    }
    VerifyAllSplits();
    BeforeScratchIsBare();
    LeavesEarlyIsFailing(tape);
    hide VERIFY_ALL, BEFORE_SCRATCH, LeavesEarly, FailsIn, Bare, StageOf;
    BareRunIsClean(f0, BEFORE_SCRATCH, tape, 0);
    var f1 := Run(f0, BEFORE_SCRATCH, tape, 0);
    RunAppend(f0, BEFORE_SCRATCH, [MakeScratch] + ([Work] + ([DropScratch] + rest)), tape, 0);
    if !f1.done {
      MadeIsDropped(f1, rest, tape, 13);
    }
  }

  /**
   * The stages of `/verify_all` are mutually exclusive exactly when the request leaves before its
   * scratch directory exists, by one of the six failures that come before; otherwise the drop is the
   * one sample inside another stage.
   */
  lemma VerifyAllExclusiveExactly(tape: nat -> Tick, arrival: nat, entered: nat)
    requires arrival <= entered
    ensures
      var records := Outcome(VERIFY_ALL, tape, arrival, entered).records;
      DropsAreNested(records) && (NoneNested(records) <==> LeavesEarly(tape))
  {
    hide VERIFY_ALL, LeavesEarly, DropsAreNested, NoneNested, DroppedScratch;
    NestedAreDrops(tape, arrival, entered);
    DropsExactly(tape, arrival, entered);
  }

  // ----- runs, step by step -----

  lemma {:induction false} RunAppend(f: Frame, a: seq<Step>, b: seq<Step>, tape: nat -> Tick, at: nat)
    ensures Run(f, a + b, tape, at) == Run(Run(f, a, tape, at), b, tape, at + |a|)
    decreases |a|
  {
    if a == [] || f.done {
      assert a == [] ==> a + b == b;
    } else {
      assert (a + b)[1..] == a[1..] + b && (a + b)[0] == a[0];
      RunAppend(Perform(f, a[0], tape, at), a[1..], b, tape, at + 1);
    }
  }

  lemma RunStep(f: Frame, step: Step, steps: seq<Step>, tape: nat -> Tick, at: nat)
    requires !f.done
    ensures Run(f, [step] + steps, tape, at) == Run(Perform(f, step, tape, at), steps, tape, at + 1)
  {
    assert ([step] + steps)[0] == step && ([step] + steps)[1..] == steps;
  }

  lemma RunNothing(f: Frame, tape: nat -> Tick, at: nat)
    ensures Run(f, [], tape, at) == f
  {
  }

  /** No stage is running. */
  ghost predicate Calm(f: Frame) {
    !f.done && !HasSpan(f.guards)
  }

  lemma WorkIsRun(f: Frame, tape: nat -> Tick, at: nat)
    requires !f.done && !tape(at).fails
    ensures Run(f, [Work], tape, at) == f.(now := f.now + tape(at).before)
  {
    assert [Work] == [Work] + [];
    RunStep(f, Work, [], tape, at);
  }

  /** The end of a stage under which nothing but directories is left. */
  lemma EndIsRun(f: Frame, name: string, started: nat, guards: seq<Guard>, tape: nat -> Tick, at: nat)
    requires !f.done && !HasSpan(guards) && f.guards == guards + [SpanGuard(name, started)]
    ensures
      var to := f.now + tape(at).before;
      Run(f, [End], tape, at) ==
      f.(now := to, guards := guards, records := f.records + [Record(name, started, to, false)])
  {
    assert Single(f.guards);
    SpanAtOf(f.guards, |guards|);
    assert f.guards[..|guards|] + f.guards[|guards| + 1..] == guards;
    assert [End] == [End] + [];
    RunStep(f, End, [], tape, at);
  }

  /** A stage that does not fail gives one sample, from its beginning to its end. */
  lemma StageIsRun(f: Frame, name: string, tape: nat -> Tick, at: nat)
    requires Calm(f) && !tape(at + 1).fails
    ensures
      var from := f.now + tape(at).before;
      var to := from + tape(at + 1).before + tape(at + 2).before;
      Run(f, StageOf(name), tape, at) == f.(now := to, records := f.records + [Record(name, from, to, false)])
  {
    hide Run;
    var from := f.now + tape(at).before;
    var g := f.(now := from, guards := f.guards + [SpanGuard(name, from)]);
    assert StageOf(name) == [Begin(name)] + ([Work] + [End]);
    RunStep(f, Begin(name), [Work] + [End], tape, at);
    RunStep(g, Work, [End], tape, at + 1);
    EndIsRun(g.(now := from + tape(at + 1).before), name, from, f.guards, tape, at + 2);
  }

  // ----- which stages a run can have -----

  /** Nothing with the name has been recorded, and no stage with it is running. */
  predicate Nameless(f: Frame, name: string) {
    && (forall i | 0 <= i < |f.records| :: f.records[i].name != name)
    && forall k | 0 <= k < |f.guards| :: f.guards[k].SpanGuard? ==> f.guards[k].name != name
  }

  predicate NeverBegins(steps: seq<Step>, name: string) {
    forall k | 0 <= k < |steps| :: steps[k].Begin? ==> steps[k].name != name
  }

  lemma {:induction false} UnwindStaysNameless(f: Frame, name: string, tape: nat -> Tick, at: nat)
    requires Nameless(f, name) && name != SCRATCH_DROP
    ensures Nameless(Unwind(f, tape, at), name)
    decreases |f.guards|
  {
    if f.guards != [] {
      UnwindStaysNameless(DropLast(f, tape(at)), name, tape, at + 1);
    }
  }

  lemma StepStaysNameless(f: Frame, step: Step, name: string, tape: nat -> Tick, at: nat)
    requires Nameless(f, name) && name != SCRATCH_DROP && (step.Begin? ==> step.name != name)
    ensures Nameless(Perform(f, step, tape, at), name)
  {
    if step.Work? {
      UnwindStaysNameless(f.(now := f.now + tape(at).before), name, tape, at + 1);
    }
  }

  /** A run records no stage that its handler does not begin. */
  lemma {:induction false} RunStaysNameless(f: Frame, steps: seq<Step>, name: string, tape: nat -> Tick, at: nat)
    requires Nameless(f, name) && name != SCRATCH_DROP && NeverBegins(steps, name)
    ensures Nameless(Run(f, steps, tape, at), name)
    decreases |steps|
  {
    if steps != [] && !f.done {
      assert NeverBegins(steps[1..], name);
      StepStaysNameless(f, steps[0], name, tape, at);
      hide Nameless, NeverBegins, Perform;
      RunStaysNameless(Perform(f, steps[0], tape, at), steps[1..], name, tape, at + 1);
    }
  }

  const REPORT_STAGE := "tdx_report_us"

  lemma InformationReportsNothing()
    ensures NeverBegins(INFORMATION_TPM, REPORT_STAGE) && REPORT_STAGE != SCRATCH_DROP
  {
    assert REPORT_STAGE[1] == 'd';
    assert "lock_wait_us"[1] == 'o' && "scratch_new_us"[1] == 'c' && "measure_and_extend_us"[1] == 'e';
    assert "ensure_ak_us"[1] == 'n' && "serialize_us"[1] == 'e' && SCRATCH_DROP[1] == 'c';
  }

  /** No run of `information_tpm` has a stage for a TDX report. */
  lemma NoReportStage(tape: nat -> Tick, arrival: nat, entered: nat)
    requires arrival <= entered
    ensures Nameless(Outcome(INFORMATION_TPM, tape, arrival, entered), REPORT_STAGE)
  {
    InformationReportsNothing();
    assert Nameless(Entered(arrival, entered), REPORT_STAGE) by {
      assert REPORT_STAGE[1] == 'd' && "http_body_read_us"[1] == 't';
    }
    hide INFORMATION_TPM, Nameless, NeverBegins, REPORT_STAGE;
    RunStaysNameless(Entered(arrival, entered), INFORMATION_TPM, REPORT_STAGE, tape, 0);
  }

  // ----- a request whose stages add up to more than itself -----

  /** Nothing takes time or fails, but removing a directory takes a millisecond. */
  const SLOW_DROP: nat -> Tick := _ => Tick(0, 1_000_000, false)

  const LATE: nat := 1_000_000

  /** Up to the dropping of the scratch directory. */
  lemma SlowVerifyQuoteBegins(f: Frame, at: nat)
    requires !f.done && f.guards == []
    ensures
      Run(f, VERIFY_QUOTE, SLOW_DROP, at)
      == Run(f.(guards := [SpanGuard("tpm_verify_us", f.now), ScratchGuard]), [DropScratch] + [End], SLOW_DROP, at + 4)
  {
    hide Run;
    var name := "tpm_verify_us";
    var g := f.(guards := [SpanGuard(name, f.now)]);
    var h := f.(guards := [SpanGuard(name, f.now), ScratchGuard]);
    var last := [DropScratch] + [End];
    assert VERIFY_QUOTE == [Begin(name)] + ([Work] + ([MakeScratch] + ([Work] + last)));
    RunStep(f, Begin(name), [Work] + ([MakeScratch] + ([Work] + last)), SLOW_DROP, at);
    assert f.guards + [SpanGuard(name, f.now)] == g.guards;
    RunStep(g, Work, [MakeScratch] + ([Work] + last), SLOW_DROP, at + 1);
    RunStep(g, MakeScratch, [Work] + last, SLOW_DROP, at + 2);
    assert g.guards + [ScratchGuard] == h.guards;
    RunStep(h, Work, last, SLOW_DROP, at + 3);
  }

  lemma SlowVerifyQuote(f: Frame, at: nat)
    requires !f.done && f.guards == []
    ensures
      var later := f.now + LATE;
      Run(f, VERIFY_QUOTE, SLOW_DROP, at)
      == Frame(later, [], f.records + [Record(SCRATCH_DROP, f.now, later, true)]
                          + [Record("tpm_verify_us", f.now, later, false)], false)
  {
    hide Run, VERIFY_QUOTE;
    var name, later := "tpm_verify_us", f.now + LATE;
    var g := f.(guards := [SpanGuard(name, f.now)]);
    var h := f.(guards := [SpanGuard(name, f.now), ScratchGuard]);
    SlowVerifyQuoteBegins(f, at);
    RunStep(h, DropScratch, [End], SLOW_DROP, at + 4);
    assert h.guards[..1] == g.guards && g.guards[0].SpanGuard?;
    var k := g.(now := later, records := f.records + [Record(SCRATCH_DROP, f.now, later, true)]);
    assert Perform(h, DropScratch, SLOW_DROP, at + 4) == k;
    assert k.guards == [] + [SpanGuard(name, f.now)];
    EndIsRun(k, name, f.now, [], SLOW_DROP, at + 5);
  }

  /** One more stage behind some steps that have been run. */
  lemma ThenStage(f0: Frame, before: seq<Step>, f: Frame, name: string, tape: nat -> Tick) returns (g: Frame)
    requires Run(f0, before, tape, 0) == f && Calm(f) && !tape(|before| + 1).fails
    ensures
      var from := f.now + tape(|before|).before;
      var to := from + tape(|before| + 1).before + tape(|before| + 2).before;
      g == f.(now := to, records := f.records + [Record(name, from, to, false)])
    ensures Calm(g) && Run(f0, before + StageOf(name), tape, 0) == g
  {
    hide Run, StageOf;
    RunAppend(f0, before, StageOf(name), tape, 0);
    StageIsRun(f, name, tape, |before|);
    g := Run(f, StageOf(name), tape, |before|);
  }

  lemma ThenWork(f0: Frame, before: seq<Step>, f: Frame, tape: nat -> Tick)
    requires Run(f0, before, tape, 0) == f && !f.done && !tape(|before|).fails
    ensures Run(f0, before + [Work], tape, 0) == f.(now := f.now + tape(|before|).before)
  {
    hide Run;
    RunAppend(f0, before, [Work], tape, 0);
    WorkIsRun(f, tape, |before|);
  }

  /** And one that takes no time. */
  lemma ThenQuickStage(f0: Frame, before: seq<Step>, f: Frame, name: string, tape: nat -> Tick) returns (g: Frame)
    requires Run(f0, before, tape, 0) == f && Calm(f)
    requires forall k | |before| <= k <= |before| + 2 :: tape(k).before == 0 && !tape(k).fails
    ensures g == f.(records := f.records + [Record(name, f.now, f.now, false)]) && Calm(g)
    ensures Run(f0, before + StageOf(name), tape, 0) == g
  {
    hide Run, StageOf, Calm;
    assert tape(|before|).before == 0 && tape(|before| + 1).before == 0 && tape(|before| + 2).before == 0;
    g := ThenStage(f0, before, f, name, tape);
  }

  lemma BeforeQuote(f: Frame)
    requires Calm(f)
    ensures
      Run(f, BEFORE_QUOTE, SLOW_DROP, 0)
      == f.(records := f.records + [Record("json_deserialize_us", f.now, f.now, false)]
                       + [Record("report_decode_us", f.now, f.now, false)]
                       + [Record("tdx_verify_us", f.now, f.now, false)])
  {
    WorkIsRun(f, SLOW_DROP, 0);
    hide Run, StageOf, HasSpan;
    var f1 := ThenQuickStage(f, [Work], f, "json_deserialize_us", SLOW_DROP);
    var s1 := [Work] + StageOf("json_deserialize_us");
    ThenWork(f, s1, f1, SLOW_DROP);
    var s2 := s1 + [Work];
    var f2 := ThenQuickStage(f, s2, f1, "report_decode_us", SLOW_DROP);
    var s3 := s2 + StageOf("report_decode_us");
    var f3 := ThenQuickStage(f, s3, f2, "tdx_verify_us", SLOW_DROP);
    assert BEFORE_QUOTE == s3 + StageOf("tdx_verify_us");
  }

  function SlowRecords(): seq<Record> {
    Entered(0, 0).records + [Record("json_deserialize_us", 0, 0, false)] + [Record("report_decode_us", 0, 0, false)]
    + [Record("tdx_verify_us", 0, 0, false)] + [Record(SCRATCH_DROP, 0, LATE, true)]
    + [Record("tpm_verify_us", 0, LATE, false)] + [Record("serialize_us", LATE, LATE, false)]
  }

  lemma SlowRun()
    ensures Outcome(VERIFY_ALL, SLOW_DROP, 0, 0) == Frame(LATE, [], SlowRecords(), false)
  {
    hide Run, StageOf;
    var f0 := Entered(0, 0);
    BeforeQuote(f0);
    var f1 := Run(f0, BEFORE_QUOTE, SLOW_DROP, 0);
    SlowVerifyQuote(f1, |BEFORE_QUOTE|);
    var f2 := Run(f1, VERIFY_QUOTE, SLOW_DROP, |BEFORE_QUOTE|);
    RunAppend(f0, BEFORE_QUOTE, VERIFY_QUOTE, SLOW_DROP, 0);
    var f3 := ThenStage(f0, BEFORE_QUOTE + VERIFY_QUOTE, f2, "serialize_us", SLOW_DROP);
  }

  lemma TotalOfAppend(records: seq<Record>, r: Record)
    requires Ordered(records) && r.from <= r.to
    ensures Ordered(records + [r])
    ensures Total(StageSamples(records + [r])) == Total(StageSamples(records)) + Microseconds(r.from, r.to)
  {
    assert StageSamples(records + [r])[..|records|] == StageSamples(records);
  }

  /** One more sample, and what it adds. */
  lemma AppendedTotal(records: seq<Record>, name: string, from: nat, to: nat, nested: bool)
    returns (longer: seq<Record>)
    requires Ordered(records) && from <= to
    ensures longer == records + [Record(name, from, to, nested)] && Ordered(longer)
    ensures Total(StageSamples(longer)) == Total(StageSamples(records)) + Microseconds(from, to)
  {
    longer := records + [Record(name, from, to, nested)];
    TotalOfAppend(records, Record(name, from, to, nested));
  }

  lemma SlowTotal()
    ensures Ordered(SlowRecords()) && Total(StageSamples(SlowRecords())) == 2_000
  {
    var none: seq<Record> := [];
    assert none + [Record("http_body_read_us", 0, 0, false)] == Entered(0, 0).records && Total(StageSamples(none)) == 0;
    assert Microseconds(0, 0) == 0 && Microseconds(0, LATE) == 1_000 && Microseconds(LATE, LATE) == 0;
    hide Total, StageSamples, Ordered, Microseconds;
    var r0 := AppendedTotal(none, "http_body_read_us", 0, 0, false);
    var r1 := AppendedTotal(r0, "json_deserialize_us", 0, 0, false);
    var r2 := AppendedTotal(r1, "report_decode_us", 0, 0, false);
    var r3 := AppendedTotal(r2, "tdx_verify_us", 0, 0, false);
    var r4 := AppendedTotal(r3, SCRATCH_DROP, 0, LATE, true);
    var r5 := AppendedTotal(r4, "tpm_verify_us", 0, LATE, false);
    var r6 := AppendedTotal(r5, "serialize_us", LATE, LATE, false);
  }

  /** On `/verify_all` the stages can exceed the request: here they take two milliseconds of one. */
  lemma VerifyAllOverlaps()
    ensures
      var f := Outcome(VERIFY_ALL, SLOW_DROP, 0, 0);
      && Ordered(f.records) && Total(StageSamples(f.records)) == 2_000 && Microseconds(0, f.now) == 1_000
  {
    hide Outcome, VERIFY_ALL, StageSamples, Ordered, SlowRecords;
    SlowRun();
    SlowTotal();
  }

  // ----- a run of `information_tpm` -----

  /** Nothing takes time or fails, but measuring and extending takes `d` nanoseconds. */
  function SlowMeasure(d: nat): nat -> Tick {
    at => Tick(if at == 8 then d else 0, 0, false)
  }

  const NEW_SCRATCH: seq<Step> := [Begin("scratch_new_us"), Work, MakeScratch, End]

  /** The directory is made inside the stage, and outlives it. */
  lemma EndOverScratch(f: Frame, name: string, tape: nat -> Tick, at: nat)
    requires !f.done && f.guards == [SpanGuard(name, f.now), ScratchGuard] && tape(at).before == 0
    ensures Run(f, [End] + [], tape, at)
            == f.(guards := [ScratchGuard], records := f.records + [Record(name, f.now, f.now, false)])
  {
    RunStep(f, End, [], tape, at);
    assert SpanAt(f.guards) == 0 && f.guards[..0] + f.guards[1..] == [ScratchGuard];
    RunNothing(Perform(f, End, tape, at), tape, at + 1);
  }

  lemma NewScratchIsRun(f: Frame, d: nat, at: nat)
    requires !f.done && f.guards == [] && at + 4 <= 8
    ensures
      Run(f, NEW_SCRATCH, SlowMeasure(d), at)
      == f.(guards := [ScratchGuard], records := f.records + [Record("scratch_new_us", f.now, f.now, false)])
  {
    hide Run;
    var tape, name := SlowMeasure(d), "scratch_new_us";
    var g := f.(guards := [SpanGuard(name, f.now)]);
    var h := f.(guards := [SpanGuard(name, f.now), ScratchGuard]);
    var last := [End] + [];
    assert NEW_SCRATCH == [Begin(name)] + ([Work] + ([MakeScratch] + last));
    RunStep(f, Begin(name), [Work] + ([MakeScratch] + last), tape, at);
    assert f.guards + [SpanGuard(name, f.now)] == g.guards;
    RunStep(g, Work, [MakeScratch] + last, tape, at + 1);
    RunStep(g, MakeScratch, last, tape, at + 2);
    assert g.guards + [ScratchGuard] == h.guards;
    EndOverScratch(h, name, tape, at + 3);
  }

  lemma LeaveIsRun(f: Frame, d: nat, at: nat)
    requires !f.done && f.guards == [ScratchGuard] && at > 8
    ensures
      Run(f, [Work, DropScratch], SlowMeasure(d), at)
      == f.(guards := [], records := f.records + [Record(SCRATCH_DROP, f.now, f.now, false)])
  {
    hide Run;
    var tape := SlowMeasure(d);
    assert [Work, DropScratch] == [Work] + ([DropScratch] + []);
    RunStep(f, Work, [DropScratch] + [], tape, at);
    RunStep(f, DropScratch, [], tape, at + 1);
    assert f.guards[..0] == [];
    RunNothing(Perform(f, DropScratch, tape, at + 1), tape, at + 2);
  }

  /** The samples of such a run: body, lock, directory, measurement, key, drop, serialisation. */
  function InformationRecords(d: nat): seq<Record> {
    Entered(0, 0).records + [Record("lock_wait_us", 0, 0, false)] + [Record("scratch_new_us", 0, 0, false)]
    + [Record("measure_and_extend_us", 0, d, false)] + [Record("ensure_ak_us", d, d, false)]
    + [Record(SCRATCH_DROP, d, d, false)] + [Record("serialize_us", d, d, false)]
  }

  /** Up to the directory, nothing has taken time. */
  lemma InformationStart(d: nat)
    ensures
      Run(Entered(0, 0), StageOf("lock_wait_us") + NEW_SCRATCH, SlowMeasure(d), 0)
      == Frame(0, [ScratchGuard], Entered(0, 0).records + [Record("lock_wait_us", 0, 0, false)]
                                  + [Record("scratch_new_us", 0, 0, false)], false)
  {
    var f0, tape := Entered(0, 0), SlowMeasure(d);
    var lock := StageOf("lock_wait_us");
    assert |lock| == 3;
    RunNothing(f0, tape, 0);
    hide Run, StageOf, NEW_SCRATCH;
    var f1 := ThenQuickStage(f0, [], f0, "lock_wait_us", tape);
    assert [] + lock == lock;
    NewScratchIsRun(f1, d, 3);
    RunAppend(f0, lock, NEW_SCRATCH, tape, 0);
  }

  lemma InformationCycle(d: nat)
    ensures
      Run(Entered(0, 0), CYCLE, SlowMeasure(d), 0)
      == Frame(d, [ScratchGuard], Entered(0, 0).records + [Record("lock_wait_us", 0, 0, false)]
                                  + [Record("scratch_new_us", 0, 0, false)]
                                  + [Record("measure_and_extend_us", 0, d, false)], false)
  {
    var f0, tape := Entered(0, 0), SlowMeasure(d);
    var start := StageOf("lock_wait_us") + NEW_SCRATCH;
    CycleSplits();
    hide StageOf, CYCLE, NEW_SCRATCH, Entered;
    InformationStart(d);
    var f2 := Run(f0, start, tape, 0);
    hide Run;
    var f3 := ThenStage(f0, start, f2, "measure_and_extend_us", tape);
  }

  lemma CycleSplits()
    ensures CYCLE == StageOf("lock_wait_us") + NEW_SCRATCH + StageOf("measure_and_extend_us")
    ensures |StageOf("lock_wait_us") + NEW_SCRATCH| == 7
  {
  }

  lemma InformationRun(d: nat)
    ensures Outcome(INFORMATION_TPM, SlowMeasure(d), 0, 0) == Frame(d, [], InformationRecords(d), false)
  {
    var f0, tape := Entered(0, 0), SlowMeasure(d);
    var lead, leave := CYCLE + StageOf("ensure_ak_us"), [Work, DropScratch];
    assert |CYCLE| == 10 && |lead| == 13;
    hide Run, StageOf, CYCLE;
    InformationCycle(d);
    var f1 := ThenStage(f0, CYCLE, Run(f0, CYCLE, tape, 0), "ensure_ak_us", tape);
    LeaveIsRun(f1, d, 13);
    RunAppend(f0, lead, leave, tape, 0);
    var f2 := Run(f1, leave, tape, 13);
    var f3 := ThenStage(f0, lead + leave, f2, "serialize_us", tape);
    assert lead + leave + StageOf("serialize_us") == lead + (leave + StageOf("serialize_us"));
  }

  /** Its stages add up to the whole request. */
  lemma InformationTotal(d: nat)
    ensures Ordered(InformationRecords(d)) && Total(StageSamples(InformationRecords(d))) == Microseconds(0, d)
  {
    var none: seq<Record> := [];
    assert none + [Record("http_body_read_us", 0, 0, false)] == Entered(0, 0).records && Total(StageSamples(none)) == 0;
    assert Microseconds(0, 0) == 0 && Microseconds(d, d) == 0;
    hide Total, StageSamples, Ordered, Microseconds;
    var r0 := AppendedTotal(none, "http_body_read_us", 0, 0, false);
    var r1 := AppendedTotal(r0, "lock_wait_us", 0, 0, false);
    var r2 := AppendedTotal(r1, "scratch_new_us", 0, 0, false);
    var r3 := AppendedTotal(r2, "measure_and_extend_us", 0, d, false);
    var r4 := AppendedTotal(r3, "ensure_ak_us", d, d, false);
    var r5 := AppendedTotal(r4, SCRATCH_DROP, d, d, false);
    var r6 := AppendedTotal(r5, "serialize_us", d, d, false);
  }
}
