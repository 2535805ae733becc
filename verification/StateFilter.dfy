/** The stateful filter that suppresses unchanged or insignificantly changed state samples. */
module StateFilter {
  import opened Wrappers
  import opened Sequences

  datatype Json = Null | Bool(flag: bool) | Integer(n: int) | Float(r: real) | String(text: string)
                | Array(items: seq<Json>) | Object(entries: map<string, Json>)

  /** `as_f64`, with reals for 64-bit floats. */
  function AsReal(v: Json): Option<real> {
    match v
    case Integer(n) => Some(n as real)
    case Float(r) => Some(r)
    case _ => None
  }

  datatype Sample = Sample(device: string, capability: string, value: Json, at: nat)

  datatype Config = Config(thresholds: map<string, real>, silence: Option<nat>)

  /** The value and the instant last emitted, or seeded, per capability. */
  datatype Memory = Memory(last: map<string, Json>, emitted: map<string, nat>)

  const BLANK: Memory := Memory(map[], map[])

  function Find<T>(m: map<string, T>, key: string): Option<T> {
    if key in m then Some(m[key]) else None
  }

  function Distance(a: real, b: real): real {
    if a >= b then a - b else b - a
  }

  function SaturatingSub(a: nat, b: nat): nat {
    if a >= b then a - b else 0
  }

  predicate MeaningfulChange(previous: Option<Json>, threshold: Option<real>, current: Json) {
    if previous.None? then true
    else if threshold.Some? && AsReal(previous.value).Some? && AsReal(current).Some? then
      Distance(AsReal(current).value, AsReal(previous.value).value) >= threshold.value
    else previous.value != current
  }

  predicate ForceEmit(cfg: Config, m: Memory, x: Sample) {
    cfg.silence.Some?
    && (x.capability in m.emitted ==> SaturatingSub(x.at, m.emitted[x.capability]) >= cfg.silence.value)
  }

  predicate Emits(cfg: Config, m: Memory, x: Sample) {
    MeaningfulChange(Find(m.last, x.capability), Find(cfg.thresholds, x.capability), x.value) || ForceEmit(cfg, m, x)
  }

  function Remember(m: Memory, x: Sample): Memory {
    Memory(m.last[x.capability := x.value], m.emitted[x.capability := x.at])
  }

  function RememberAll(m: Memory, xs: seq<Sample>): Memory {
    if xs == [] then m else Remember(RememberAll(m, xs[..|xs| - 1]), xs[|xs| - 1])
  }

  class Filter {
    const config: Config
    var lastStates: map<string, Json>
    var lastEmittedMs: map<string, nat>

    function State(): Memory
      reads this
    {
      Memory(lastStates, lastEmittedMs)
    }

    constructor (config: Config)
      ensures this.config == config && State() == BLANK
    {
      this.config := config;
      lastStates, lastEmittedMs := map[], map[];
    }

    method SeedFromStates(states: seq<Sample>)
      modifies this
      ensures State() == RememberAll(old(State()), states)
    {
      for i := 0 to |states|
        invariant State() == RememberAll(old(State()), states[..i])
      {
        assert states[..i + 1][..i] == states[..i];
        lastStates := lastStates[states[i].capability := states[i].value];
        lastEmittedMs := lastEmittedMs[states[i].capability := states[i].at];
      }
      assert states[..|states|] == states;
    }

    method ShouldPublishAndRemember(x: Sample) returns (publish: bool)
      modifies this
      ensures publish == Emits(config, old(State()), x)
      ensures State() == if publish then Remember(old(State()), x) else old(State())
    {
      var changed := MeaningfulChange(Find(lastStates, x.capability), Find(config.thresholds, x.capability), x.value);
      var force := !changed && ForceEmit(config, State(), x);
      if changed || force {
        lastStates := lastStates[x.capability := x.value];
        lastEmittedMs := lastEmittedMs[x.capability := x.at];
      }
      publish := changed || force;
    }
  }

  // ---- Whole streams ----

  function Step(cfg: Config, m: Memory, x: Sample): Memory {
    if Emits(cfg, m, x) then Remember(m, x) else m
  }

  /** What a filter in state `m` lets through of a stream. */
  function Filtered(cfg: Config, m: Memory, xs: seq<Sample>): seq<Sample>
    decreases |xs|
  {
    if xs == [] then []
    else (if Emits(cfg, m, xs[0]) then [xs[0]] else []) + Filtered(cfg, Step(cfg, m, xs[0]), xs[1..])
  }

  function After(cfg: Config, m: Memory, xs: seq<Sample>): Memory
    decreases |xs|
  {
    if xs == [] then m else After(cfg, Step(cfg, m, xs[0]), xs[1..])
  }

  function Only(xs: seq<Sample>, capability: string): seq<Sample> {
    if xs == [] then [] else (if xs[0].capability == capability then [xs[0]] else []) + Only(xs[1..], capability)
  }

  lemma {:induction false} OnlyConcat(a: seq<Sample>, b: seq<Sample>, capability: string)
    ensures Only(a + b, capability) == Only(a, capability) + Only(b, capability)
  {
    if a == [] {
      assert a + b == b;
    } else {
      HeadAndTail(a, b);
      OnlyConcat(a[1..], b, capability);
      Assoc(if a[0].capability == capability then [a[0]] else [], Only(a[1..], capability), Only(b, capability));
    }
  }

  ghost predicate Alike(m: Memory, n: Memory, capability: string) {
    Find(m.last, capability) == Find(n.last, capability) && Find(m.emitted, capability) == Find(n.emitted, capability)
  }

  lemma AlikeDecide(cfg: Config, m: Memory, n: Memory, x: Sample)
    requires Alike(m, n, x.capability)
    ensures Emits(cfg, m, x) == Emits(cfg, n, x) && Alike(Step(cfg, m, x), Step(cfg, n, x), x.capability)
  {
  }

  lemma {:induction false} ProjectionGeneral(cfg: Config, m: Memory, n: Memory, xs: seq<Sample>, capability: string)
    requires Alike(m, n, capability)
    ensures Filtered(cfg, n, Only(xs, capability)) == Only(Filtered(cfg, m, xs), capability)
    decreases |xs|
  {
    if xs != [] {
      var x := xs[0];
      var head := if Emits(cfg, m, x) then [x] else [];
      OnlyConcat(head, Filtered(cfg, Step(cfg, m, x), xs[1..]), capability);
      if x.capability == capability {
        AlikeDecide(cfg, m, n, x);
        ProjectionGeneral(cfg, Step(cfg, m, x), Step(cfg, n, x), xs[1..], capability);
        assert Only(xs, capability)[1..] == Only(xs[1..], capability);
        assert Only(head, capability) == head by {
          if head != [] {
            assert head[1..] == [];
          }
        }
      } else {
        ProjectionGeneral(cfg, Step(cfg, m, x), n, xs[1..], capability);
        assert Only(xs, capability) == Only(xs[1..], capability);
        assert Only(head, capability) == [] by {
          if head != [] {
            assert head[1..] == [];
          }
        }
      }
    }
  }

  /** Filtering an interleaved stream, seen on one capability, is filtering that capability's own stream. */
  lemma Projection(cfg: Config, m: Memory, xs: seq<Sample>, capability: string)
    ensures Filtered(cfg, m, Only(xs, capability)) == Only(Filtered(cfg, m, xs), capability)
  {
    ProjectionGeneral(cfg, m, m, xs, capability);
  }

  /** Filtering an already filtered stream changes nothing, whatever state both filters start from. */
  lemma {:induction false} Idempotent(cfg: Config, m: Memory, xs: seq<Sample>)
    ensures Filtered(cfg, m, Filtered(cfg, m, xs)) == Filtered(cfg, m, xs)
    ensures After(cfg, m, Filtered(cfg, m, xs)) == After(cfg, m, xs)
    decreases |xs|
  {
    if xs != [] {
      var rest := Filtered(cfg, Step(cfg, m, xs[0]), xs[1..]);
      Idempotent(cfg, Step(cfg, m, xs[0]), xs[1..]);
      if Emits(cfg, m, xs[0]) {
        assert ([xs[0]] + rest)[1..] == rest;
      } else {
        assert [] + rest == rest;
      }
    }
  }

  // ---- What a consumer of the filtered stream knows ----

  /** The last sample of a capability in a stream. */
  function LastOf(xs: seq<Sample>, capability: string): Option<Sample> {
    if xs == [] then None
    else if xs[|xs| - 1].capability == capability then Some(xs[|xs| - 1])
    else LastOf(xs[..|xs| - 1], capability)
  }

  /** The memory holds, per capability, the last sample of this stream. */
  ghost predicate Records(m: Memory, xs: seq<Sample>) {
    forall c: string ::
      var x := LastOf(xs, c);
      Find(m.last, c) == (if x.Some? then Some(x.value.value) else None)
      && Find(m.emitted, c) == (if x.Some? then Some(x.value.at) else None)
  }

  lemma RecordsOneMore(m: Memory, xs: seq<Sample>, x: Sample)
    requires Records(m, xs)
    ensures Records(Remember(m, x), xs + [x])
  {
    assert (xs + [x])[..|xs|] == xs;
  }

  lemma {:induction false} SeedsRecorded(seeds: seq<Sample>)
    ensures Records(RememberAll(BLANK, seeds), seeds)
  {
    if seeds != [] {
      var before := seeds[..|seeds| - 1];
      SeedsRecorded(before);
      RecordsOneMore(RememberAll(BLANK, before), before, seeds[|seeds| - 1]);
      assert before + [seeds[|seeds| - 1]] == seeds;
    }
  }

  lemma {:induction false} EmissionsRecorded(cfg: Config, m: Memory, known: seq<Sample>, xs: seq<Sample>)
    requires Records(m, known)
    ensures Records(After(cfg, m, xs), known + Filtered(cfg, m, xs))
    decreases |xs|
  {
    if xs == [] {
      assert known + [] == known;
    } else {
      var more := if Emits(cfg, m, xs[0]) then [xs[0]] else [];
      if more == [] {
        assert known + more == known;
      } else {
        RecordsOneMore(m, known, xs[0]);
      }
      EmissionsRecorded(cfg, Step(cfg, m, xs[0]), known + more, xs[1..]);
      var rest := Filtered(cfg, Step(cfg, m, xs[0]), xs[1..]);
      assert known + (more + rest) == known + more + rest;
    }
  }

  /** In every run from any seeds both memories know the same capabilities, and hold what was last seeded or emitted. */
  lemma MemoryIsLastEmitted(cfg: Config, seeds: seq<Sample>, xs: seq<Sample>)
    ensures var m := After(cfg, RememberAll(BLANK, seeds), xs);
      m.last.Keys == m.emitted.Keys && Records(m, seeds + Filtered(cfg, RememberAll(BLANK, seeds), xs))
  {
    SeedsRecorded(seeds);
    EmissionsRecorded(cfg, RememberAll(BLANK, seeds), seeds, xs);
    var m := After(cfg, RememberAll(BLANK, seeds), xs);
    forall c
      ensures c in m.last <==> c in m.emitted
    {
      assert Find(m.last, c).Some? <==> Find(m.emitted, c).Some?;
    }
  }

  /** An unchanged value is compared with an emission instant, so it is never forced out for want of one. */
  lemma UnchangedWasEmitted(cfg: Config, seeds: seq<Sample>, xs: seq<Sample>, x: Sample)
    ensures var m := After(cfg, RememberAll(BLANK, seeds), xs);
      !MeaningfulChange(Find(m.last, x.capability), Find(cfg.thresholds, x.capability), x.value) ==>
        x.capability in m.emitted
  {
    MemoryIsLastEmitted(cfg, seeds, xs);
  }

  predicate Numeric(v: Json) {
    v.Integer? || v.Float?
  }

  predicate Within(kept: real, t: real, r: real) {
    kept - t < r < kept + t
  }

  /** The new number lies strictly within the threshold of the kept one, on either side. */
  predicate CloseTo(kept: Json, t: real, value: Json)
    requires Numeric(kept) && Numeric(value)
  {
    match (kept, value)
    case (Integer(k), Integer(r)) => Within(k as real, t, r as real)
    case (Integer(k), Float(r)) => Within(k as real, t, r)
    case (Float(k), Integer(r)) => Within(k, t, r as real)
    case (Float(k), Float(r)) => Within(k, t, r)
  }

  /** `x` adds nothing that matters to a consumer who holds `kept`. */
  predicate Negligible(cfg: Config, kept: Sample, x: Sample) {
    && (if x.capability in cfg.thresholds && Numeric(kept.value) && Numeric(x.value)
        then CloseTo(kept.value, cfg.thresholds[x.capability], x.value) else x.value == kept.value)
    && (cfg.silence.Some? ==> 0 < cfg.silence.value && x.at < kept.at + cfg.silence.value)
  }

  lemma {:induction false} AfterLast(cfg: Config, m: Memory, xs: seq<Sample>, x: Sample)
    ensures After(cfg, m, xs + [x]) == Step(cfg, After(cfg, m, xs), x)
    ensures Filtered(cfg, m, xs + [x]) == Filtered(cfg, m, xs) + if Emits(cfg, After(cfg, m, xs), x) then [x] else []
    decreases |xs|
  {
    if xs == [] {
      assert (xs + [x])[1..] == [];
    } else {
      assert (xs + [x])[1..] == xs[1..] + [x];
      AfterLast(cfg, Step(cfg, m, xs[0]), xs[1..], x);
    }
  }

  /**
   * A sample is suppressed exactly when what was last seeded or emitted for its capability makes it
   * negligible: close enough and recent enough. Errors do not add up, since it is compared with what
   * consumers hold and not with the sample before.
   */
  lemma SuppressedExactly(cfg: Config, seeds: seq<Sample>, xs: seq<Sample>, x: Sample)
    ensures var start := RememberAll(BLANK, seeds);
      var kept := LastOf(seeds + Filtered(cfg, start, xs), x.capability);
      Filtered(cfg, start, xs + [x])
      == Filtered(cfg, start, xs) + if kept.Some? && Negligible(cfg, kept.value, x) then [] else [x]
  {
    var start := RememberAll(BLANK, seeds);
    var m := After(cfg, start, xs);
    MemoryIsLastEmitted(cfg, seeds, xs);
    AfterLast(cfg, start, xs, x);
    var kept := LastOf(seeds + Filtered(cfg, start, xs), x.capability);
    assert Find(m.last, x.capability) == if kept.Some? then Some(kept.value.value) else None;
    assert Find(m.emitted, x.capability) == if kept.Some? then Some(kept.value.at) else None;
  }
}
