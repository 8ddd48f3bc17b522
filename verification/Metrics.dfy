/** The timing recorder: merging buckets, spans that record once, the body-read stage. */
module Metrics {
  import opened Wrappers

  const U64: nat := 0x1_0000_0000_0000_0000

  /** A name and a number of microseconds (or a count). */
  type Sample = (string, nat)

  // ----- what buckets mean -----

  /** The names of some samples, in the order of their first appearance. */
  function NamesOf(samples: seq<Sample>): seq<string> {
    if samples == [] then []
    else
      var n := |samples| - 1;
      var names := NamesOf(samples[..n]);
      if samples[n].0 in names then names else names + [samples[n].0]
  }

  /** The sum of all samples of one name. */
  function SumOf(samples: seq<Sample>, name: string): nat {
    if samples == [] then 0
    else
      var n := |samples| - 1;
      SumOf(samples[..n], name) + if samples[n].0 == name then samples[n].1 else 0
  }

  /** One item for each name: its sum. */
  function Merged(samples: seq<Sample>): seq<Sample> {
    var names := NamesOf(samples);
    seq(|names|, i requires 0 <= i < |names| => (names[i], SumOf(samples, names[i])))
  }

  function Total(items: seq<Sample>): nat {
    if items == [] then 0 else Total(items[..|items| - 1]) + items[|items| - 1].1
  }

  lemma {:induction false} NamesAreThoseSampled(samples: seq<Sample>, name: string)
    ensures name in NamesOf(samples) <==> exists i | 0 <= i < |samples| :: samples[i].0 == name
    ensures name !in NamesOf(samples) ==> SumOf(samples, name) == 0
  {
    if samples != [] {
      var n := |samples| - 1;
      NamesAreThoseSampled(samples[..n], name);
    }
  }

  predicate Distinct(names: seq<string>) {
    forall i, j | 0 <= i < j < |names| :: names[i] != names[j]
  }

  /** No name appears twice. */
  lemma {:induction false} NamesAreDistinct(samples: seq<Sample>)
    ensures Distinct(NamesOf(samples))
  {
    if samples != [] {
      var n := |samples| - 1;
      var before := NamesOf(samples[..n]);
      NamesAreDistinct(samples[..n]);
      assert forall i | 0 <= i < |before| :: before[i] in before;
    }
  }

  /** Where a name is sampled first. */
  function FirstOf(samples: seq<Sample>, name: string): (k: nat)
    ensures k <= |samples| && (forall i | 0 <= i < k :: samples[i].0 != name)
    ensures k < |samples| ==> samples[k].0 == name
  {
    if samples == [] || samples[0].0 == name then 0 else 1 + FirstOf(samples[1..], name)
  }

  lemma FirstOfPrefix(samples: seq<Sample>, n: nat, name: string)
    requires n <= |samples| && name in NamesOf(samples[..n])
    ensures FirstOf(samples, name) == FirstOf(samples[..n], name) < n
  {
    NamesAreThoseSampled(samples[..n], name);
    assert forall i | 0 <= i < n :: samples[..n][i] == samples[i];
  }

  /** The names are in the order in which they were first sampled. */
  lemma {:induction false} NamesAreInOrder(samples: seq<Sample>, i: nat, j: nat)
    requires i < j < |NamesOf(samples)|
    ensures FirstOf(samples, NamesOf(samples)[i]) < FirstOf(samples, NamesOf(samples)[j])
  {
    var n := |samples| - 1;
    var names, before := NamesOf(samples), NamesOf(samples[..n]);
    FirstOfPrefix(samples, n, before[i]);
    if j < |before| {
      NamesAreInOrder(samples[..n], i, j);
      FirstOfPrefix(samples, n, before[j]);
    } else {
      NamesAreThoseSampled(samples[..n], names[j]);
      assert forall k | 0 <= k < n :: samples[..n][k] == samples[k];
    }
  }

  lemma SumStep(samples: seq<Sample>, name: string, us: nat, n: string)
    ensures SumOf(samples + [(name, us)], n) == SumOf(samples, n) + if n == name then us else 0
    ensures NamesOf(samples + [(name, us)]) ==
            if name in NamesOf(samples) then NamesOf(samples) else NamesOf(samples) + [name]
  {
    assert (samples + [(name, us)])[..|samples|] == samples;
  }

  /** A sample of a known name is added to its item. */
  lemma MergedAgain(samples: seq<Sample>, name: string, us: nat, k: nat)
    requires k < |NamesOf(samples)| && NamesOf(samples)[k] == name
    ensures Merged(samples + [(name, us)]) == Merged(samples)[k := (name, Merged(samples)[k].1 + us)]
  {
    var names, longer := NamesOf(samples), samples + [(name, us)];
    NamesAreDistinct(samples);
    hide NamesOf, SumOf;
    SumStep(samples, name, us, name);
    forall i | 0 <= i < |names|
      ensures Merged(longer)[i] == Merged(samples)[k := (name, Merged(samples)[k].1 + us)][i]
    {
      SumStep(samples, name, us, names[i]);
    }
  }

  /** A sample of a new name becomes the last item. */
  lemma MergedFirst(samples: seq<Sample>, name: string, us: nat)
    requires name !in NamesOf(samples)
    ensures Merged(samples + [(name, us)]) == Merged(samples) + [(name, us)] && SumOf(samples, name) == 0
  {
    var names, longer := NamesOf(samples), samples + [(name, us)];
    NamesAreThoseSampled(samples, name);
    hide NamesOf, SumOf;
    SumStep(samples, name, us, name);
    forall i | 0 <= i < |names| ensures Merged(longer)[i] == Merged(samples)[i] {
      SumStep(samples, name, us, names[i]);
    }
  }

  lemma {:induction false} TotalOfUpdate(items: seq<Sample>, k: nat, item: Sample)
    requires k < |items|
    ensures Total(items[k := item]) == Total(items) - items[k].1 + item.1
  {
    var n := |items| - 1;
    if k < n {
      assert items[k := item][..n] == items[..n][k := item];
      TotalOfUpdate(items[..n], k, item);
    } else {
      assert items[k := item][..n] == items[..n];
    }
  }

  /** Merging loses nothing: the items add up to what all samples add up to. */
  lemma {:induction false} MergingKeepsTheTotal(samples: seq<Sample>)
    ensures Total(Merged(samples)) == Total(samples)
  {
    if samples != [] {
      var n := |samples| - 1;
      var (name, us) := samples[n];
      MergingKeepsTheTotal(samples[..n]);
      assert samples == samples[..n] + [(name, us)];
      var names, items := NamesOf(samples[..n]), Merged(samples[..n]);
      assert |names| == |items|;
      hide Merged, NamesOf, SumOf;
      if name in names {
        var k :| 0 <= k < |names| && names[k] == name;
        MergedAgain(samples[..n], name, us, k);
        TotalOfUpdate(items, k, (name, items[k].1 + us));
      } else {
        MergedFirst(samples[..n], name, us);
        assert (items + [(name, us)])[..|items|] == items;
      }
    }
  }

  // ----- the buckets -----

  /** An insertion-ordered map from names to microseconds that merges duplicates. */
  class Buckets {
    var items: seq<Sample>
    ghost var samples: seq<Sample>

    ghost predicate Valid()
      reads this
    {
      items == Merged(samples)
    }

    constructor ()
      ensures Valid() && samples == []
    {
      items, samples := [], [];
    }

    /** The position of `name`, or the number of items. */
    method Find(name: string) returns (k: nat)
      ensures k <= |items| && (k < |items| ==> items[k].0 == name)
      ensures forall i | 0 <= i < k :: items[i].0 != name
    {
      k := 0;
      while k < |items| && items[k].0 != name
        invariant k <= |items|
        invariant forall i | 0 <= i < k :: items[i].0 != name
      {
        k := k + 1;
      }
    }

    /** One more sample; a sum that overflows panics and leaves everything as it was. */
    method Add(name: string, us: nat) returns (ok: bool)
      requires Valid() && us < U64
      modifies this
      ensures Valid() && ok == (SumOf(old(samples), name) + us < U64)
      ensures samples == if ok then old(samples) + [(name, us)] else old(samples)
    {
      var k := Find(name);
      ok := true;
      hide Merged, SumOf, NamesOf;
      KeysAreNames(samples);
      if k < |items| {
        MergedAgain(samples, name, us, k);
        ok := items[k].1 + us < U64;
        if ok {
          items := items[k := (name, items[k].1 + us)];
        }
      } else {
        MergedFirst(samples, name, us);
        items := items + [(name, us)];
      }
      if ok {
        samples := samples + [(name, us)];
      }
    }

    method Get(name: string) returns (us: Option<nat>)
      requires Valid()
      ensures us == if name in NamesOf(samples) then Some(SumOf(samples, name)) else None
    {
      var k := Find(name);
      if k < |items| {
        us := Some(items[k].1);
      } else {
        us := None;
      }
      KeysAreNames(samples);
    }

    /** The sum of all items; `None` when it overflows. */
    method Sum() returns (total: Option<nat>)
      requires Valid()
      ensures total == if Total(samples) < U64 then Some(Total(samples)) else None
    {
      MergingKeepsTheTotal(samples);
      hide Merged;
      var sum := 0;
      var i := 0;
      while i < |items|
        invariant i <= |items| && sum == Total(items[..i]) < U64
      {
        assert items[..i + 1][..i] == items[..i];
        sum := sum + items[i].1;
        i := i + 1;
        if sum >= U64 {
          TotalGrows(items, i);
          return None;
        }
      }
      assert items[..i] == items;
      return Some(sum);
    }
  }

  lemma KeysAreNames(samples: seq<Sample>)
    ensures
      var (names, items) := (NamesOf(samples), Merged(samples));
      |items| == |names| && forall i | 0 <= i < |names| :: items[i] == (names[i], SumOf(samples, names[i]))
  {
  }

  lemma {:induction false} TotalGrows(items: seq<Sample>, i: nat)
    requires i <= |items|
    ensures Total(items[..i]) <= Total(items)
  {
    var n := |items| - 1;
    if i <= n {
      TotalGrows(items[..n], i);
      assert items[..n][..i] == items[..i];
    } else {
      assert items[..i] == items;
    }
  }

  // ----- the residual -----

  /** `as i64`. */
  function AsI64(n: nat): int
    requires n < U64
  {
    if n < U64 / 2 then n else n - U64
  }

  /** The time no stage accounts for; `None` when the subtraction overflows. */
  function Residual(e2e: nat, total: nat): Option<int>
    requires e2e < U64 && total < U64
  {
    var d := AsI64(e2e) - AsI64(total);
    if -(U64 / 2) <= d < U64 / 2 then Some(d) else None
  }

  /** Up to 2^63 the residual is what it is meant to be. */
  lemma ResidualIsTheDifference(e2e: nat, total: nat)
    requires e2e < U64 / 2 && total < U64 / 2
    ensures Residual(e2e, total) == Some(e2e - total)
  {
  }

  // ----- the recorder -----

  /** Everything measured for one request. Times are nanoseconds of the monotonic clock. */
  class Recorder {
    const start: nat
    const stages: Buckets
    const units: Buckets
    const counters: Buckets
    var route: string
    var concurrency: nat
    var warm: bool
    var handlerEntered: bool

    ghost predicate Valid()
      reads this, stages, units, counters
    {
      && stages != units && stages != counters && units != counters
      && stages.Valid() && units.Valid() && counters.Valid()
    }

    constructor (now: nat, route: string, concurrency: nat)
      ensures Valid() && fresh(stages) && fresh(units) && fresh(counters)
      ensures start == now && this.route == route && this.concurrency == concurrency && warm && !handlerEntered
      ensures stages.samples == [] && units.samples == [] && counters.samples == []
    {
      start, this.route, this.concurrency, warm, handlerEntered := now, route, concurrency, true, false;
      stages := new Buckets();
      units := new Buckets();
      counters := new Buckets();
    }

    method MarkCold()
      modifies `warm
      ensures !warm
    {
      warm := false;
    }

    /** The first line of a handler; only the first call of a request records anything. */
    method EnterHandler(now: nat) returns (ok: bool)
      requires Valid() && start <= now
      modifies `handlerEntered, stages
      ensures Valid() && handlerEntered
      ensures ok && !old(handlerEntered) ==>
                stages.samples == old(stages.samples) + [("http_body_read_us", Microseconds(start, now))]
      ensures !ok || old(handlerEntered) ==> stages.samples == old(stages.samples)
    {
      ok := true;
      if !handlerEntered {
        handlerEntered := true;
        ok := stages.Add("http_body_read_us", Microseconds(start, now));
      }
    }
  }

  /** `as_micros() as u64` of the time between two readings of the clock. */
  function Microseconds(from: nat, to: nat): (us: nat)
    requires from <= to
    ensures us < U64
  {
    (to - from) / 1000 % U64
  }

  datatype Kind = Stage | Unit

  /** A running measurement. */
  class Span {
    const name: string
    const kind: Kind
    var started: Option<nat>
    var rec: Option<Recorder>

    constructor (name: string, kind: Kind, now: nat, rec: Option<Recorder>)
      ensures this.name == name && this.kind == kind && started == Some(now) && this.rec == rec
    {
      this.name, this.kind, this.started, this.rec := name, kind, Some(now), rec;
    }

    /** Will finishing record a sample? */
    predicate Running()
      reads this
    {
      started.Some? && rec.Some?
    }

    /** The recorder's buckets this span writes to. */
    function Target(): Buckets
      requires rec.Some?
      reads this
    {
      if kind.Stage? then rec.value.stages else rec.value.units
    }

    /** What finishing at `now` records. */
    function Recorded(now: nat): seq<Sample>
      requires Running() ==> started.value <= now
      reads this
    {
      if Running() then [(name, Microseconds(started.value, now))] else []
    }

    /** Records one sample if still running; afterwards the span is spent. */
    method Finish(now: nat) returns (ok: bool)
      requires Running() ==> rec.value.Valid() && started.value <= now
      modifies `started, `rec, if rec.Some? then {Target()} else {}
      ensures started.None? && rec.None? && (old(Running()) ==> old(rec).value.Valid())
      ensures old(rec).Some? ==>
                old(Target()).samples == old(Target().samples) + if ok then old(Recorded(now)) else []
    {
      var s, r := started, rec;
      started, rec := None, None;
      if s.None? || r.None? {
        return true;
      }
      var us := Microseconds(s.value, now);
      if kind.Stage? {
        ok := r.value.stages.Add(name, us);
      } else {
        ok := r.value.units.Add(name, us);
      }
    }

    /** `end` takes the span by value, so it is dropped right after: still one sample, the first. */
    method End(now: nat, dropped: nat) returns (ok: bool)
      requires Running() ==> rec.value.Valid() && started.value <= now
      modifies `started, `rec, if rec.Some? then {Target()} else {}
      ensures started.None? && rec.None? && (old(Running()) ==> old(rec).value.Valid())
      ensures old(rec).Some? ==>
                old(Target()).samples == old(Target().samples) + if ok then old(Recorded(now)) else []
    {
      ok := Finish(now);
      var again := Finish(dropped);
    }
  }

  /**
   * `measure_json`: a stage around one serialisation, which ends with the scope. Without a recorder in
   * scope nothing is recorded.
   */
  method MeasureJson(rec: Option<Recorder>, from: nat, to: nat) returns (ok: bool)
    requires from <= to && (rec.Some? ==> rec.value.Valid())
    modifies if rec.Some? then {rec.value.stages} else {}
    ensures rec.Some? ==>
              && rec.value.Valid()
              && rec.value.stages.samples ==
                 old(rec.value.stages.samples) + if ok then [("serialize_us", Microseconds(from, to))] else []
  {
    var span := new Span("serialize_us", Stage, from, rec);
    ok := span.Finish(to);
  }
}
