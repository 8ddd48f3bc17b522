/** A record that a run of `information_tpm` leaves, and what `checksum_ok` says about it. */
module HonestRecord {
  import opened Wrappers
  import opened Metrics
  import opened Stages
  import opened StageRuns
  import opened Render

  /** What the parts of a measurement took, in microseconds; the key was there and its public part cached. */
  datatype Times = Times(
    walk: nat, hash: nat, folder: nat, startup: nat, reset: nat, extend: nat, read: nat, getcap: nat)

  /** The units in the order in which they end. */
  function UnitsOf(t: Times): seq<Sample> {
    [("collect_regular_files_us", t.walk), ("read_and_hash_loop_us", t.hash), ("measure_folder_us", t.folder),
     ("tpm2_startup_us", t.startup), ("tpm2_pcrreset_us", t.reset), ("tpm2_pcrextend_us", t.extend),
     ("tpm2_pcrread_us", t.read), ("tpm2_getcap_us", t.getcap)]
  }

  /** The stage samples of a run; those of a measuring handler are always ordered. */
  function SamplesOf(records: seq<Record>): seq<Sample> {
    if Ordered(records) then StageSamples(records) else []
  }

  /** Children fit their parent, and units without one fit the stage they belong to. */
  predicate Nested(t: Times, stages: seq<Sample>) {
    && t.walk + t.hash <= t.folder
    && t.folder + t.startup + t.reset + t.extend + t.read <= SumOf(stages, "measure_and_extend_us")
    && t.getcap <= SumOf(stages, "ensure_ak_us")
  }

  // ----- looking things up -----

  predicate DifferentNames(samples: seq<Sample>) {
    forall i, j | 0 <= i < j < |samples| :: samples[i].0 != samples[j].0
  }

  /** A name that is sampled once has that sample. */
  lemma {:induction false} OnceSampled(samples: seq<Sample>, i: nat)
    requires DifferentNames(samples) && i < |samples|
    ensures Lookup(samples, samples[i].0) == Some(samples[i].1)
  {
    var n := |samples| - 1;
    NamesAreThoseSampled(samples[..n], samples[i].0);
    if i < n {
      OnceSampled(samples[..n], i);
      assert samples[..n][i] == samples[i];
    }
  }

  lemma NeverSampled(samples: seq<Sample>, name: string)
    requires forall i | 0 <= i < |samples| :: samples[i].0 != name
    ensures Lookup(samples, name) == None
  {
    NamesAreThoseSampled(samples, name);
  }

  /** A letter in which two of the names differ. */
  lemma NamesOfUnitsDiffer(t: Times)
    ensures DifferentNames(UnitsOf(t))
  {
    var u := UnitsOf(t);
    assert u[0].0[0] == 'c' && u[1].0[0] == 'r' && u[2].0[0] == 'm';
    assert u[3].0[0] == u[4].0[0] == u[5].0[0] == u[6].0[0] == u[7].0[0] == 't';
    assert u[3].0[5] == 's' && u[7].0[5] == 'g' && u[4].0[5] == u[5].0[5] == u[6].0[5] == 'p';
    assert u[4].0[8] == 'r' && u[4].0[10] == 's' && u[5].0[8] == 'e' && u[6].0[8] == 'r' && u[6].0[10] == 'a';
  }

  function SumFrom(samples: seq<Sample>, i: nat): nat
    requires i <= |samples|
  {
    if i == 0 then 0 else SumFrom(samples, i - 1) + samples[i - 1].1
  }

  lemma {:induction false} TotalIsSumFrom(samples: seq<Sample>, i: nat)
    requires i <= |samples|
    ensures Total(samples[..i]) == SumFrom(samples, i)
  {
    if i > 0 {
      TotalIsSumFrom(samples, i - 1);
      assert samples[..i][..i - 1] == samples[..i - 1];
    }
  }

  lemma TotalOfUnits(t: Times)
    ensures Total(UnitsOf(t)) ==
            t.walk + t.hash + t.folder + t.startup + t.reset + t.extend + t.read + t.getcap
  {
    var u := UnitsOf(t);
    TotalIsSumFrom(u, 8);
    assert u[..8] == u;
    hide Total;
    assert SumFrom(u, 1) == SumFrom(u, 0) + t.walk && SumFrom(u, 0) == 0;
    assert SumFrom(u, 2) == t.walk + t.hash;
    assert SumFrom(u, 4) == t.walk + t.hash + t.folder + t.startup;
    assert SumFrom(u, 6) == SumFrom(u, 4) + t.reset + t.extend;
  }

  lemma FolderOfUnitsFits(t: Times, e2e: nat)
    requires t.walk + t.hash <= t.folder <= e2e && e2e < U64 / 4
    ensures FolderFits(UnitsOf(t), Tolerance(e2e)) == Some(true)
  {
    var u := UnitsOf(t);
    NamesOfUnitsDiffer(t);
    OnceSampled(u, 0);
    OnceSampled(u, 1);
    OnceSampled(u, 2);
    hide Lookup;
  }

  /** The time of one name is part of the whole. */
  lemma {:induction false} SumIsPart(samples: seq<Sample>, name: string)
    ensures SumOf(samples, name) <= Total(samples)
  {
    if samples != [] {
      SumIsPart(samples[..|samples| - 1], name);
    }
  }

  lemma ReportOfSamplesFits(records: seq<Record>, units: seq<Sample>, tolerance: nat)
    requires forall i | 0 <= i < |records| :: records[i].name != REPORT_STAGE
    ensures ReportFits(SamplesOf(records), units, tolerance) == Some(true)
  {
    NeverSampled(SamplesOf(records), REPORT_STAGE);
    hide Lookup;
  }

  lemma NothingFromThere(tape: nat -> Tick, arrival: nat, entered: nat)
    requires arrival <= entered
    ensures
      var records := Outcome(INFORMATION_TPM, tape, arrival, entered).records;
      forall i | 0 <= i < |records| :: records[i].name != REPORT_STAGE
  {
    NoReportStage(tape, arrival, entered);
    hide Outcome;
  }

  /**
   * For every run of `information_tpm`, whatever takes how long, with units that nest in the stages of
   * this run: the residual is not negative, and if it is small the record passes exactly when the folder
   * time, counted twice beside all commands, still fits the request.
   */
  lemma FolderTimeCountsTwice(tape: nat -> Tick, arrival: nat, entered: nat, end: nat, t: Times)
    requires arrival <= entered <= end && Outcome(INFORMATION_TPM, tape, arrival, entered).now <= end
    requires (end - arrival) / 1000 < U64 / 4
    requires Nested(t, SamplesOf(Outcome(INFORMATION_TPM, tape, arrival, entered).records))
    ensures
      var records := Outcome(INFORMATION_TPM, tape, arrival, entered).records;
      var (e2e, stages) := (Microseconds(arrival, end), SamplesOf(records));
      && Ordered(records) && Total(stages) <= e2e
      && Residual(e2e, Total(stages)) == Some(e2e - Total(stages))
      && Checksum(e2e, e2e - Total(stages), stages, UnitsOf(t))
         == Some(&& e2e - Total(stages) <= Tolerance(e2e)
                 && t.walk + t.hash + t.folder + t.startup + t.reset + t.extend + t.read + t.getcap
                    <= e2e + Tolerance(e2e))
  {
    var records := Outcome(INFORMATION_TPM, tape, arrival, entered).records;
    var e2e := Microseconds(arrival, end);
    StagesFitTheRequest(INFORMATION_TPM, tape, arrival, entered, end);
    NothingFromThere(tape, arrival, entered);
    var stages := SamplesOf(records);
    hide Outcome, INFORMATION_TPM, Chained, NoneNested, StageSamples, Residual;
    ResidualIsTheDifference(e2e, Total(stages));
    ReportOfSamplesFits(records, UnitsOf(t), Tolerance(e2e));
    SumIsPart(stages, "measure_and_extend_us");
    FolderOfUnitsFits(t, e2e);
    TotalOfUnits(t);
    hide SamplesOf, Total, FolderFits, ReportFits, UnitsOf, Microseconds, SumOf, REPORT_STAGE;
    ChecksumComesTo(e2e, e2e - Total(stages), stages, UnitsOf(t));
  }

  /** `Render.ChecksumIsTheTotal` with the residual that is left. */
  lemma ChecksumComesTo(e2e: nat, residual: nat, stages: seq<Sample>, units: seq<Sample>)
    requires e2e < U64 / 4
    requires FolderFits(units, Tolerance(e2e)) == Some(true) && ReportFits(stages, units, Tolerance(e2e)) == Some(true)
    ensures Checksum(e2e, residual, stages, units)
            == Some(residual <= Tolerance(e2e) && Total(units) <= e2e + Tolerance(e2e))
  {
    hide FolderFits, ReportFits, Total, Merged, TpmTime;
    if residual <= Tolerance(e2e) {
      ChecksumIsTheTotal(e2e, residual, stages, units);
    }
  }

  /** In the run in which only measuring takes time, that stage has all of it. */
  lemma MeasuringTakesAll(d: nat)
    ensures
      var stages := SamplesOf(InformationRecords(d));
      && SumOf(stages, "measure_and_extend_us") == Total(stages) == Microseconds(0, d)
      && SumOf(stages, "ensure_ak_us") == 0
  {
    InformationTotal(d);
    var stages := SamplesOf(InformationRecords(d));
    assert |stages| == 7 && stages[3] == ("measure_and_extend_us", Microseconds(0, d));
    assert stages[4] == ("ensure_ak_us", 0);
    NamesOfStagesDiffer(d);
    hide SamplesOf, Microseconds, Total, InformationRecords, StageSamples;
    OnceSampled(stages, 3);
    OnceSampled(stages, 4);
  }

  lemma NamesOfStagesDiffer(d: nat)
    ensures DifferentNames(SamplesOf(InformationRecords(d)))
  {
    InformationTotal(d);
    var s := SamplesOf(InformationRecords(d));
    assert |s| == 7 && s[0].0[0] == 'h' && s[1].0[0] == 'l' && s[3].0[0] == 'm' && s[4].0[0] == 'e';
    assert s[2].0[0] == s[5].0[0] == s[6].0[0] == 's' && s[6].0[1] == 'e' && s[2].0[1] == s[5].0[1] == 'c';
    assert s[2].0[8] == 'n' && s[5].0[8] == 'd';
  }

  /** So an honest record can fail: ten seconds, nearly all of them spent on the folder. */
  lemma HonestRecordFails()
    ensures
      var f := Outcome(INFORMATION_TPM, SlowMeasure(10_000_000_000), 0, 0);
      var t := Times(4_000_000, 5_800_000, 9_800_000, 50_000, 50_000, 50_000, 50_000, 0);
      var stages := SamplesOf(f.records);
      && Nested(t, stages) && Total(stages) == Microseconds(0, f.now)
      && Checksum(Microseconds(0, f.now), 0, stages, UnitsOf(t)) == Some(false)
  {
    var d := 10_000_000_000;
    assert Microseconds(0, d) == 10_000_000;
    InformationRun(d);
    MeasuringTakesAll(d);
    var t := Times(4_000_000, 5_800_000, 9_800_000, 50_000, 50_000, 50_000, 50_000, 0);
    hide Outcome, INFORMATION_TPM, InformationRecords, SamplesOf, Total, UnitsOf, Checksum, Microseconds, SumOf;
    FolderTimeCountsTwice(SlowMeasure(d), 0, 0, d, t);
  }
}
