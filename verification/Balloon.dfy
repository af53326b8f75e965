/**
 The memory balloon controller (backend/qemu/internal/balloon/controller.go) and its configuration
 (internal/manifest/balloon.go). Times and durations count nanoseconds; sizes in the configuration count
 mebibytes and become bytes by a 64-bit product.
 */
module Balloon {
  import opened Wrappers
  import opened MachineInts
  import ByteSize

  datatype Config = Config(
    minActual: int, maxActual: int, growBelow: int, reclaimAbove: int, step: int,
    pollInterval: int, reclaimHoldoff: int)
  {
    function Min(): int { Bytes(minActual) }
    function Max(): int { Bytes(maxActual) }
    function Step(): int { Bytes(step) }
    function StaleAfter(): int { Wrap64(2 * pollInterval) }
  }

  function Bytes(mib: int): int {
    Wrap64(mib * ByteSize.MEBIBYTE)
  }

  // Defaults and validation.

  const SECOND := 1_000_000_000
  const UNSET := Config(0, 0, 0, 0, 0, 0, 0)

  function DefaultMin(maxActual: int, memory: int): int {
    var m := if maxActual <= 0 then memory else maxActual;
    if m <= 1 then 1 else TruncDiv(Wrap64(m + 1), 2)
  }

  function DefaultGrowBelow(idle: int): int {
    if idle <= 1 then 0 else idle / 2
  }

  function DefaultReclaimAbove(idle: int): int {
    if idle <= 0 then 1 else idle
  }

  function Or(x: int, fallback: int): int {
    if x == 0 then fallback else x
  }

  function Defaulted(memory: int, c: Config): Config {
    var maxActual := Or(c.maxActual, memory);
    var idle := if c.minActual <= 0 then DefaultMin(maxActual, memory) else c.minActual;
    Config(Or(c.minActual, idle), maxActual,
           Or(c.growBelow, DefaultGrowBelow(idle)), Or(c.reclaimAbove, DefaultReclaimAbove(idle)),
           Or(c.step, 256), Or(c.pollInterval, 5 * SECOND), Or(c.reclaimHoldoff, 30 * SECOND))
  }

  /** `x` is half of `m`, rounded up; beyond the largest integer the sum has wrapped around. */
  predicate HalfOf(x: int, m: int) {
    if m <= 1 then x == 1 else if m < MAX_INT64 then 2 * x == m || 2 * x == m + 1
    else m == MAX_INT64 ==> x == -0x4000_0000_0000_0000
  }

  /** What is configured stays, and what is left at zero gets its default; thresholds go by the minimum. */
  ghost predicate Completes(memory: int, c: Config, d: Config) {
    && (if c.maxActual != 0 then d.maxActual == c.maxActual else d.maxActual == memory)
    && (if c.minActual != 0 then d.minActual == c.minActual
        else HalfOf(d.minActual, if d.maxActual <= 0 then memory else d.maxActual))
    && (c.growBelow != 0 ==> d.growBelow == c.growBelow)
    && (c.growBelow == 0 && c.minActual >= 0 ==>
          if d.minActual <= 1 then d.growBelow == 0 else d.growBelow == d.minActual / 2)
    && (c.reclaimAbove != 0 ==> d.reclaimAbove == c.reclaimAbove)
    && (c.reclaimAbove == 0 && c.minActual >= 0 ==>
          if d.minActual <= 0 then d.reclaimAbove == 1 else d.reclaimAbove == d.minActual)
    && (if c.step != 0 then d.step == c.step else d.step == 256)
    && (if c.pollInterval != 0 then d.pollInterval == c.pollInterval else d.pollInterval == 5_000_000_000)
    && (if c.reclaimHoldoff != 0 then d.reclaimHoldoff == c.reclaimHoldoff else d.reclaimHoldoff == 30_000_000_000)
  }

  lemma DefaultsComplete(memory: int, c: Config)
    ensures Completes(memory, c, Defaulted(memory, c))
  {
  }

  predicate Validates(memory: int, c: Config) {
    && 0 < c.minActual <= c.maxActual <= memory
    && 0 <= c.growBelow < c.reclaimAbove
    && c.step > 0 && c.pollInterval > 0 && c.reclaimHoldoff > 0
  }

  datatype Problem =
    | NoMinimum | MinimumAboveMaximum | MaximumAboveMemory | NegativeGrowBelow | NegativeReclaimAbove
    | ThresholdsCross | NoStep | NoPollInterval | NoHoldoff

  /** `validateBalloonController`: the first thing that is wrong. */
  function ControllerProblem(memory: int, c: Config): Option<Problem> {
    if c.minActual <= 0 then Some(NoMinimum)
    else if c.minActual > c.maxActual then Some(MinimumAboveMaximum)
    else if c.maxActual > memory then Some(MaximumAboveMemory)
    else if c.growBelow < 0 then Some(NegativeGrowBelow)
    else if c.reclaimAbove < 0 then Some(NegativeReclaimAbove)
    else if c.growBelow >= c.reclaimAbove then Some(ThresholdsCross)
    else if c.step <= 0 then Some(NoStep)
    else if c.pollInterval <= 0 then Some(NoPollInterval)
    else if c.reclaimHoldoff <= 0 then Some(NoHoldoff)
    else None
  }

  /** Nothing is wrong exactly with limits in order within the memory, thresholds in order, and positive paces. */
  lemma NoProblemIff(memory: int, c: Config)
    ensures ControllerProblem(memory, c).None? <==> Validates(memory, c)
    ensures Validates(memory, c) <==>
              && c.minActual >= 1 && c.minActual <= c.maxActual
              && c.maxActual <= memory && c.growBelow >= 0 && c.growBelow < c.reclaimAbove
              && c.step >= 1 && c.pollInterval >= 1 && c.reclaimHoldoff >= 1
  {
  }

  class Device {
    var controller: Option<Config>

    /** `applyBalloonDefaults`. */
    method ApplyDefaults(memory: int)
      modifies this
      ensures controller == Some(Defaulted(memory, if old(controller).Some? then old(controller).value else UNSET))
      ensures Completes(memory, if old(controller).Some? then old(controller).value else Config(0, 0, 0, 0, 0, 0, 0),
                        controller.value)
    {
      var c := if controller.Some? then controller.value else UNSET;
      if c.maxActual == 0 {
        c := c.(maxActual := memory);
      }
      var idle := c.minActual;
      if idle <= 0 {
        idle := DefaultMin(c.maxActual, memory);
      }
      if c.minActual == 0 {
        c := c.(minActual := idle);
      }
      if c.growBelow == 0 {
        c := c.(growBelow := DefaultGrowBelow(idle));
      }
      if c.reclaimAbove == 0 {
        c := c.(reclaimAbove := DefaultReclaimAbove(idle));
      }
      if c.step == 0 {
        c := c.(step := 256);
      }
      if c.pollInterval == 0 {
        c := c.(pollInterval := 5 * SECOND);
      }
      if c.reclaimHoldoff == 0 {
        c := c.(reclaimHoldoff := 30 * SECOND);
      }
      controller := Some(c);
      DefaultsComplete(memory, if old(controller).Some? then old(controller).value else UNSET);
    }
  }

  /**
   The synthesised configuration validates for every memory size but the very largest, where the
   rounding sum wraps around.
   */
  lemma DefaultsValidateIff(memory: int)
    requires InInt64(memory)
    ensures Validates(memory, Defaulted(memory, UNSET)) <==> 1 <= memory < MAX_INT64
  {
  }

  /** A configured minimum alone validates exactly when it lies within the memory. */
  lemma MinimumValidatesIff(memory: int, minActual: int)
    requires InInt64(memory) && minActual != 0
    ensures Validates(memory, Defaulted(memory, UNSET.(minActual := minActual))) <==> 1 <= minActual <= memory
  {
  }

  // One evaluation.

  /** `available` is none when the guest reports neither available nor free memory. */
  datatype Sample = Sample(available: Option<int>, lastUpdate: Option<int>)

  datatype Decision = Idle | Resize(target: int) | StatsUnavailable | StatsStale

  /** Does a sample reach the threshold tests? */
  predicate Tested(c: Config, now: int, s: Sample) {
    s.lastUpdate.Some? && now - s.lastUpdate.value <= c.StaleAfter() && s.available.Some?
  }

  /** Why a sample did not. */
  function Untested(c: Config, startedAt: int, now: int, s: Sample): Decision {
    if s.lastUpdate.Some? && now - s.lastUpdate.value > c.StaleAfter() then StatsStale
    else if now - startedAt >= c.StaleAfter() then StatsUnavailable
    else Idle
  }

  predicate Low(c: Config, s: Sample) {
    s.available.Some? && s.available.value < Bytes(c.growBelow)
  }

  predicate Surplus(c: Config, s: Sample) {
    s.available.Some? && !Low(c, s) && s.available.value > Bytes(c.reclaimAbove)
  }

  function Grow(c: Config, actual: int): Decision {
    var sum := Wrap64(actual + c.Step());
    var target := if sum > c.Max() then c.Max() else sum;
    if target <= actual then Idle else Resize(target)
  }

  function Reclaim(c: Config, actual: int): Decision {
    var difference := Wrap64(actual - c.Step());
    var target := if difference < c.Min() then c.Min() else difference;
    if target >= actual then Idle else Resize(target)
  }

  /** The decision and the new start of the surplus. */
  function Evaluated(c: Config, startedAt: int, above: Option<int>, now: int, actual: int, s: Sample)
    : (Decision, Option<int>)
  {
    if !Tested(c, now, s) then (Untested(c, startedAt, now, s), above)
    else if Low(c, s) then (Grow(c, actual), None)
    else if !Surplus(c, s) || actual <= c.Min() then (Idle, None)
    else if above.None? then (Idle, Some(now))
    else if now - above.value < c.reclaimHoldoff then (Idle, above)
    else (Reclaim(c, actual), None)
  }

  /** What the thresholds make of `available` bytes, and of the surplus that began at `above`. */
  ghost predicate Decides(c: Config, above: Option<int>, now: int, actual: int, available: int,
                          d: Decision, above': Option<int>)
  {
    if available < Wrap64(c.growBelow * 0x10_0000) then
      && above'.None?
      && (d == Resize(Wrap64(c.maxActual * 0x10_0000)) || d == Resize(Wrap64(actual + Wrap64(c.step * 0x10_0000)))
          || d.Idle?)
      && (d.Resize? ==> actual < d.target <= Wrap64(c.maxActual * 0x10_0000)
                        && d.target <= Wrap64(actual + Wrap64(c.step * 0x10_0000)))
      && (d.Idle? ==> || Wrap64(c.maxActual * 0x10_0000) <= actual
                      || Wrap64(actual + Wrap64(c.step * 0x10_0000)) <= actual)
    else if available <= Wrap64(c.reclaimAbove * 0x10_0000) || actual <= Wrap64(c.minActual * 0x10_0000) then
      d.Idle? && above'.None?
    else if above.None? then
      d.Idle? && above' == Some(now)
    else if now - above.value < c.reclaimHoldoff then
      d.Idle? && above' == above
    else
      && above'.None?
      && (d == Resize(Wrap64(c.minActual * 0x10_0000)) || d == Resize(Wrap64(actual - Wrap64(c.step * 0x10_0000)))
          || d.Idle?)
      && (d.Resize? ==> Wrap64(c.minActual * 0x10_0000) <= d.target < actual
                        && Wrap64(actual - Wrap64(c.step * 0x10_0000)) <= d.target)
      && (d.Idle? ==> Wrap64(actual - Wrap64(c.step * 0x10_0000)) >= actual)
  }

  // Runs.

  /**
   One tick: when it comes, what the guest's statistics say (none when reading them fails), whether QEMU takes
   a new size, and the size QEMU reports in the next cycle: none when the balloon has reached its goal by then.
   */
  datatype Tick = Tick(now: int, sample: Option<Sample>, accepted: bool, reported: Option<int>)

  /** `actual` is the size QEMU reports, `goal` the last one it took, behind which a balloon may lag. */
  datatype State = State(startedAt: int, above: Option<int>, actual: int, goal: int)

  function DecisionAt(c: Config, st: State, t: Tick): Decision {
    if t.sample.None? then Idle else Evaluated(c, st.startedAt, st.above, t.now, st.actual, t.sample.value).0
  }

  /** `tick`, and what is reported after it. */
  function After(c: Config, st: State, t: Tick): State {
    if t.sample.None? then st.(actual := Reported(t, st.goal))
    else
      var (d, above) := Evaluated(c, st.startedAt, st.above, t.now, st.actual, t.sample.value);
      var goal := if d.Resize? && t.accepted then d.target else st.goal;
      State(st.startedAt, above, Reported(t, goal), goal)
  }

  function Reported(t: Tick, goal: int): int {
    if t.reported.Some? then t.reported.value else goal
  }

  predicate Fails(c: Config, st: State, t: Tick) {
    || t.sample.None?
    || DecisionAt(c, st, t).StatsUnavailable? || DecisionAt(c, st, t).StatsStale?
    || (DecisionAt(c, st, t).Resize? && !t.accepted)
  }

  function StateAt(c: Config, st: State, ticks: seq<Tick>, n: nat): State
    requires n <= |ticks|
  {
    if n == 0 then st else After(c, StateAt(c, st, ticks, n - 1), ticks[n - 1])
  }

  predicate FailsAt(c: Config, st: State, ticks: seq<Tick>, i: nat)
    requires i < |ticks|
  {
    Fails(c, StateAt(c, st, ticks, i), ticks[i])
  }

  const MAX_FAILURES := 5

  /** Ticks `n - 5` to `n - 1` all failed. */
  ghost predicate GivesUpAfter(c: Config, st: State, ticks: seq<Tick>, n: nat) {
    MAX_FAILURES <= n <= |ticks| && forall i :: n - MAX_FAILURES <= i < n ==> FailsAt(c, st, ticks, i)
  }

  /**
   A cycle that fails whatever the thresholds say: statistics that cannot be read, that are older than two poll
   intervals, or that are missing once the controller is as old.
   */
  ghost predicate Blind(pollInterval: int, startedAt: int, t: Tick) {
    || t.sample.None?
    || var s, grace := t.sample.value, Wrap64(2 * pollInterval);
       if s.lastUpdate.Some? && t.now - s.lastUpdate.value > grace then true
       else (s.lastUpdate.None? || s.available.None?) && t.now - startedAt >= grace
  }

  lemma {:induction false} StartStays(c: Config, st: State, ticks: seq<Tick>, n: nat)
    requires n <= |ticks|
    ensures StateAt(c, st, ticks, n).startedAt == st.startedAt
  {
    if n > 0 {
      StartStays(c, st, ticks, n - 1);
    }
  }

  /** Blind cycles fail, and of the others exactly those whose new size QEMU refuses. */
  lemma FailsIffBlind(c: Config, st: State, ticks: seq<Tick>, i: nat)
    requires i < |ticks|
    ensures FailsAt(c, st, ticks, i) <==>
              || Blind(c.pollInterval, st.startedAt, ticks[i])
              || (DecisionAt(c, StateAt(c, st, ticks, i), ticks[i]).Resize? && !ticks[i].accepted)
  {
    StartStays(c, st, ticks, i);
  }

  ghost predicate AllBlind(pollInterval: int, startedAt: int, ticks: seq<Tick>) {
    forall i :: 0 <= i < |ticks| ==> Blind(pollInterval, startedAt, ticks[i])
  }

  /** One of the five cycles before the `n`-th can see, and gets the size it asks for, if any. */
  ghost predicate SeesBefore(pollInterval: int, startedAt: int, ticks: seq<Tick>, n: nat) {
    exists i :: n - 5 <= i < n && 0 <= i < |ticks| && ticks[i].accepted && !Blind(pollInterval, startedAt, ticks[i])
  }

  ghost predicate NeverFiveBlind(pollInterval: int, startedAt: int, ticks: seq<Tick>) {
    forall n :: 5 <= n <= |ticks| ==> SeesBefore(pollInterval, startedAt, ticks, n)
  }

  /** A run of blind cycles gives up after the fifth. */
  lemma BlindGivesUp(c: Config, st: State, ticks: seq<Tick>, n: nat)
    requires AllBlind(c.pollInterval, st.startedAt, ticks)
    ensures GivesUpAfter(c, st, ticks, n) <==> 5 <= n <= |ticks|
  {
    forall i | 0 <= i < |ticks|
      ensures FailsAt(c, st, ticks, i)
    {
      FailsIffBlind(c, st, ticks, i);
    }
  }

  /** One cycle that sees among any five keeps a run going. */
  lemma SightKeepsGoing(c: Config, st: State, ticks: seq<Tick>, n: nat)
    requires NeverFiveBlind(c.pollInterval, st.startedAt, ticks)
    ensures !GivesUpAfter(c, st, ticks, n)
  {
    if 5 <= n <= |ticks| {
      assert SeesBefore(c.pollInterval, st.startedAt, ticks, n);
      var i :| n - 5 <= i < n && 0 <= i < |ticks| && ticks[i].accepted
               && !Blind(c.pollInterval, st.startedAt, ticks[i]);
      FailsIffBlind(c, st, ticks, i);
    }
  }

  /** A run stops after `served` ticks: where it first gives up, or at the end. */
  ghost predicate StopsAfter(c: Config, st: State, ticks: seq<Tick>, served: nat, gaveUp: bool) {
    && served <= |ticks| && (gaveUp <==> GivesUpAfter(c, st, ticks, served)) && (!gaveUp ==> served == |ticks|)
    && forall m :: 0 <= m < served ==> !GivesUpAfter(c, st, ticks, m)
  }

  /** After `n` ticks none has given up, and the last `failures` and no more have failed in a row. */
  ghost predicate Counting(c: Config, st: State, ticks: seq<Tick>, n: nat, failures: nat) {
    && n <= |ticks| && failures <= n && failures < 5
    && (forall i :: n - failures <= i < n ==> FailsAt(c, st, ticks, i))
    && (failures < n ==> !FailsAt(c, st, ticks, n - failures - 1))
    && forall m :: 0 <= m <= n ==> !GivesUpAfter(c, st, ticks, m)
  }

  lemma CountOn(c: Config, st: State, ticks: seq<Tick>, n: nat, failures: nat)
    requires Counting(c, st, ticks, n, failures) && n < |ticks|
    ensures !FailsAt(c, st, ticks, n) ==> Counting(c, st, ticks, n + 1, 0)
    ensures FailsAt(c, st, ticks, n) && failures < 4 ==> Counting(c, st, ticks, n + 1, failures + 1)
    ensures FailsAt(c, st, ticks, n) && failures == 4 ==> StopsAfter(c, st, ticks, n + 1, true)
  {
  }

  /** Where a run stops, by its samples alone. */
  lemma StopsBySamples(c: Config, st: State, ticks: seq<Tick>, served: nat, gaveUp: bool)
    requires StopsAfter(c, st, ticks, served, gaveUp)
    ensures AllBlind(c.pollInterval, st.startedAt, ticks) && |ticks| >= 5 ==> gaveUp && served == 5
    ensures NeverFiveBlind(c.pollInterval, st.startedAt, ticks) ==> !gaveUp && served == |ticks|
  {
    if AllBlind(c.pollInterval, st.startedAt, ticks) && |ticks| >= 5 {
      BlindGivesUp(c, st, ticks, 5);
      BlindGivesUp(c, st, ticks, served);
    }
    if NeverFiveBlind(c.pollInterval, st.startedAt, ticks) {
      SightKeepsGoing(c, st, ticks, served);
    }
  }

  class Controller {
    const config: Config
    var startedAt: int
    var aboveSince: Option<int>
    // The balloon's actual size and its goal, which QEMU keeps.
    var actual: int
    var goal: int

    ghost function View(): State reads this {
      State(startedAt, aboveSince, actual, goal)
    }

    constructor (c: Config, startedAt: int, actual: int)
      ensures config == c && View() == State(startedAt, None, actual, actual)
    {
      config, this.startedAt, this.actual, goal, aboveSince := c, startedAt, actual, actual, None;
    }

    /** `evaluate`. */
    method Evaluate(now: int, s: Sample) returns (d: Decision)
      modifies this`aboveSince
      ensures (d, aboveSince) == Evaluated(config, startedAt, old(aboveSince), now, actual, s)
      // Statistics older than two poll intervals are stale; none at all are an error once the controller is that old.
      ensures d == StatsStale <==> s.lastUpdate.Some? && now - s.lastUpdate.value > Wrap64(2 * config.pollInterval)
      ensures d == StatsUnavailable <==>
                && (|| s.lastUpdate.None?
                    || (s.available.None? && now - s.lastUpdate.value <= Wrap64(2 * config.pollInterval)))
                && now - startedAt >= Wrap64(2 * config.pollInterval)
      // Without a usable reading nothing moves, and a surplus goes on.
      ensures s.lastUpdate.None? || s.available.None? || d.StatsStale? ==> !d.Resize? && aboveSince == old(aboveSince)
      // With one, the thresholds decide.
      ensures s.lastUpdate.Some? && s.available.Some? && !d.StatsStale? ==>
                Decides(config, old(aboveSince), now, actual, s.available.value, d, aboveSince)
    {
      var staleAfter := Wrap64(2 * config.pollInterval);
      if s.lastUpdate.None? {
        return if now - startedAt >= staleAfter then StatsUnavailable else Idle;
      }
      if now - s.lastUpdate.value > staleAfter {
        return StatsStale;
      }
      if s.available.None? {
        return if now - startedAt >= staleAfter then StatsUnavailable else Idle;
      }
      if s.available.value < Bytes(config.growBelow) {
        aboveSince := None;
        var target := Wrap64(actual + Bytes(config.step));
        if target > Bytes(config.maxActual) {
          target := Bytes(config.maxActual);
        }
        return if target <= actual then Idle else Resize(target);
      }
      if s.available.value > Bytes(config.reclaimAbove) {
        if actual <= Bytes(config.minActual) {
          aboveSince := None;
          return Idle;
        }
        if aboveSince.None? {
          aboveSince := Some(now);
          return Idle;
        }
        if now - aboveSince.value < config.reclaimHoldoff {
          return Idle;
        }
        aboveSince := None;
        var target := Wrap64(actual - Bytes(config.step));
        if target < Bytes(config.minActual) {
          target := Bytes(config.minActual);
        }
        return if target >= actual then Idle else Resize(target);
      }
      aboveSince := None;
      return Idle;
    }

    /** `tick`. */
    method Tick(t: Tick) returns (ok: bool)
      modifies this`aboveSince, this`actual, this`goal
      ensures View() == After(config, old(View()), t) && ok == !Fails(config, old(View()), t)
      ensures Blind(config.pollInterval, startedAt, t) ==> !ok && goal == old(goal)
      // Of the other cycles those fail that ask for a size and are refused it; a size that is taken is the new goal.
      ensures !Blind(config.pollInterval, startedAt, t) ==>
                var d := DecisionAt(config, old(View()), t);
                && ok == (d.Idle? || t.accepted) && goal == if d.Resize? && t.accepted then d.target else old(goal)
      ensures t.reported.None? ==> actual == goal
      ensures t.reported.Some? ==> actual == t.reported.value
    {
      ok := t.sample.Some?;
      if t.sample.Some? {
        var d := Evaluate(t.now, t.sample.value);
        match d
        case StatsUnavailable => ok := false;
        case StatsStale => ok := false;
        case Idle =>
        case Resize(target) =>
          ok := t.accepted;
          if t.accepted {
            goal := target;
          }
      }
      // What the next cycle reads.
      actual := if t.reported.Some? then t.reported.value else goal;
    }

    /** `Run`: it gives up at the end of the first five consecutive failures, and never otherwise. */
    method Run(ticks: seq<Tick>) returns (served: nat, gaveUp: bool)
      modifies this`aboveSince, this`actual, this`goal
      ensures served <= |ticks| && View() == StateAt(config, old(View()), ticks, served)
      ensures StopsAfter(config, old(View()), ticks, served, gaveUp)
      // By the samples alone: five blind cycles end it, and one that sees among any five keeps it going.
      ensures AllBlind(config.pollInterval, startedAt, ticks) && |ticks| >= 5 ==> gaveUp && served == 5
      ensures NeverFiveBlind(config.pollInterval, startedAt, ticks) ==> !gaveUp && served == |ticks|
    {
      ghost var start := View();
      var failures := 0;
      served, gaveUp := 0, false;
      while served < |ticks|
        invariant Counting(config, start, ticks, served, failures) && !gaveUp
        invariant View() == StateAt(config, start, ticks, served)
      {
        CountOn(config, start, ticks, served, failures);
        var ok := Tick(ticks[served]);
        served := served + 1;
        if ok {
          failures := 0;
        } else {
          failures := failures + 1;
          if failures >= MAX_FAILURES {
            gaveUp := true;
            break;
          }
        }
      }
      StopsBySamples(config, start, ticks, served, gaveUp);
    }
  }

  // Single moves.

  /** When low memory makes the balloon grow: a step that wraps around, alone or in the sum, never does. */
  lemma GrowIff(c: Config, actual: int)
    requires 0 <= actual <= MAX_INT64
    ensures Grow(c, actual).Resize? <==> actual < c.Max() && 0 < c.Step() && actual + c.Step() <= MAX_INT64
    ensures Grow(c, actual).Resize? ==>
              actual < Grow(c, actual).target <= c.Max() && Grow(c, actual).target - actual <= c.Step()
  {
  }

  /** When surplus memory lets it shrink: a negative step that wraps back in the difference counts as the largest. */
  lemma ReclaimIff(c: Config, actual: int)
    requires 0 <= actual <= MAX_INT64 && 0 <= c.Min()
    ensures Reclaim(c, actual).Resize? <==> c.Min() < actual && (0 < c.Step() || actual - c.Step() > MAX_INT64)
    ensures Reclaim(c, actual).Resize? ==> c.Min() <= Reclaim(c, actual).target < actual
    ensures Reclaim(c, actual).Resize? && 0 < c.Step() ==> actual - Reclaim(c, actual).target <= c.Step()
  {
  }

  /** In 64-bit arithmetic a sum that comes out larger is larger by no more than what was added. */
  lemma WrappedSum(x: int, added: nat)
    requires InInt64(x)
    ensures Wrap64(x + Wrap64(added)) > x ==> Wrap64(x + Wrap64(added)) - x <= added
    ensures Wrap64(x - Wrap64(added)) < x ==> x - Wrap64(x - Wrap64(added)) <= added
  {
  }

  // Every run.

  predicate Between(x: int, a: int, b: int) {
    a <= x <= b || b <= x <= a
  }

  /** The balloon moves toward its goal, as far as it likes. */
  predicate Follows(c: Config, st: State, t: Tick) {
    Between(After(c, st, t).actual, st.actual, After(c, st, t).goal)
  }

  /** Size and goal are within the limits, and no further apart than a step. */
  predicate Bounded(c: Config, st: State) {
    var step := c.step * ByteSize.MEBIBYTE;
    && c.Min() <= st.actual <= c.Max() && c.Min() <= st.goal <= c.Max()
    && st.actual - step <= st.goal <= st.actual + step
  }

  /** Whatever wraps around, a decision stays within the limits and a step. */
  lemma DecisionBounded(memory: int, c: Config, st: State, t: Tick)
    requires Validates(memory, c) && Bounded(c, st)
    ensures var d, step := DecisionAt(c, st, t), c.step * ByteSize.MEBIBYTE;
            d.Resize? ==> c.Min() <= d.target <= c.Max() && st.actual - step <= d.target <= st.actual + step
  {
    WrappedSum(st.actual, c.step * ByteSize.MEBIBYTE);
  }

  lemma OneTick(memory: int, c: Config, st: State, t: Tick)
    requires Validates(memory, c) && Bounded(c, st) && Follows(c, st, t)
    ensures Bounded(c, After(c, st, t))
    ensures st.actual - c.step * ByteSize.MEBIBYTE <= After(c, st, t).actual <= st.actual + c.step * ByteSize.MEBIBYTE
  {
    DecisionBounded(memory, c, st, t);
  }

  ghost predicate FollowsThroughout(c: Config, st: State, ticks: seq<Tick>, n: nat) {
    n <= |ticks| && forall i :: 0 <= i < n ==> Follows(c, StateAt(c, st, ticks, i), ticks[i])
  }

  /**
   From within its limits the balloon never leaves them, and no tick moves it by more than a step, however far
   it lags behind its goals.
   */
  lemma {:induction false} StaysWithinLimits(memory: int, c: Config, st: State, ticks: seq<Tick>, n: nat)
    requires Validates(memory, c) && Bounded(c, st) && FollowsThroughout(c, st, ticks, n)
    ensures Bounded(c, StateAt(c, st, ticks, n))
    ensures n > 0 ==> var before, now := StateAt(c, st, ticks, n - 1).actual, StateAt(c, st, ticks, n).actual;
                      before - c.step * ByteSize.MEBIBYTE <= now <= before + c.step * ByteSize.MEBIBYTE
  {
    if n > 0 {
      StaysWithinLimits(memory, c, st, ticks, n - 1);
      OneTick(memory, c, StateAt(c, st, ticks, n - 1), ticks[n - 1]);
    }
  }

  /** A tick without a resize, whose sample, if it reached the threshold tests, showed a surplus. */
  ghost predicate Quiet(c: Config, st: State, ticks: seq<Tick>, i: nat) {
    && i < |ticks|
    && var t := ticks[i];
       && !DecisionAt(c, StateAt(c, st, ticks, i), t).Resize?
       && (t.sample.Some? && Tested(c, t.now, t.sample.value) ==> Surplus(c, t.sample.value))
  }

  /** The surplus is timed from tick `j`, and every tick from there to before `n` was quiet. */
  ghost predicate SurplusSince(c: Config, st: State, ticks: seq<Tick>, j: nat, n: nat) {
    && j < n <= |ticks|
    && ticks[j].sample.Some? && Tested(c, ticks[j].now, ticks[j].sample.value)
    && forall i :: j <= i < n ==> Quiet(c, st, ticks, i)
  }

  lemma {:induction false} TimerRunsSince(c: Config, st: State, ticks: seq<Tick>, n: nat) returns (j: nat)
    requires n <= |ticks| && st.above.None? && StateAt(c, st, ticks, n).above.Some?
    ensures SurplusSince(c, st, ticks, j, n) && StateAt(c, st, ticks, n).above == Some(ticks[j].now)
  {
    var before, t := StateAt(c, st, ticks, n - 1), ticks[n - 1];
    if before.above.Some? {
      j := TimerRunsSince(c, st, ticks, n - 1);
      assert Quiet(c, st, ticks, n - 1);
    } else {
      j := n - 1;
      assert Quiet(c, st, ticks, n - 1);
    }
  }

  predicate Reclaims(c: Config, st: State, ticks: seq<Tick>, k: nat)
    requires k < |ticks|
  {
    var before := StateAt(c, st, ticks, k);
    DecisionAt(c, before, ticks[k]).Resize? && DecisionAt(c, before, ticks[k]).target < before.actual
  }

  /** Clocks do not run backwards. */
  ghost predicate Monotone(ticks: seq<Tick>) {
    forall i, j :: 0 <= i <= j < |ticks| ==> ticks[i].now <= ticks[j].now
  }

  /**
   A reclaim comes a full hold-off after the start of a surplus that no sample compared with the
   thresholds interrupted, hence a full hold-off after every resize before it. Samples that are stale or
   missing interrupt nothing. The sizes QEMU reports may be any.
   */
  lemma ReclaimWaits(c: Config, st: State, ticks: seq<Tick>, k: nat)
    requires k < |ticks| && st.above.None? && Reclaims(c, st, ticks, k)
    ensures exists j: nat :: SurplusSince(c, st, ticks, j, k) && ticks[k].now - ticks[j].now >= c.reclaimHoldoff
    ensures Monotone(ticks) ==>
              forall i :: 0 <= i < k && DecisionAt(c, StateAt(c, st, ticks, i), ticks[i]).Resize? ==>
                            ticks[k].now - ticks[i].now >= c.reclaimHoldoff
  {
    var j := TimerRunsSince(c, st, ticks, k);
    forall i | Monotone(ticks) && 0 <= i < k && DecisionAt(c, StateAt(c, st, ticks, i), ticks[i]).Resize?
      ensures ticks[k].now - ticks[i].now >= c.reclaimHoldoff
    {
      assert i >= j ==> Quiet(c, st, ticks, i);
      assert ticks[i].now <= ticks[j].now;
    }
  }

  // Convergence.

  /** Enough steps of size `step` to cover `distance`. */
  function StepsFor(distance: nat, step: nat): nat
    requires step > 0
  {
    (distance + step - 1) / step
  }

  lemma MulMonotone(a: int, b: int, x: nat)
    requires a <= b
    ensures a * x <= b * x
  {
    assert (b - a) * x >= 0;
  }

  /** That many, and no fewer. */
  lemma StepsForLeast(distance: nat, step: nat, n: nat)
    requires step > 0
    ensures n * step >= distance <==> n >= StepsFor(distance, step)
  {
    var q := StepsFor(distance, step);
    assert q * step <= distance + step - 1 < q * step + step;
    if n >= q {
      MulMonotone(q, n, step);
    } else {
      MulMonotone(n, q - 1, step);
      assert (q - 1) * step == q * step - step;
    }
  }

  /** Ticks `0` to `n - 1` all bring a fresh sample of shortage (`low`) or surplus, and every size is honoured. */
  ghost predicate Sustained(c: Config, ticks: seq<Tick>, n: nat, low: bool) {
    && n <= |ticks|
    && forall i :: 0 <= i < n ==>
                     && ticks[i].accepted && ticks[i].reported.None? && ticks[i].sample.Some?
                     && Tested(c, ticks[i].now, ticks[i].sample.value)
                     && (if low then Low(c, ticks[i].sample.value) else Surplus(c, ticks[i].sample.value))
  }

  function Greatest(a: int, b: int): int { if a >= b then a else b }

  /**
   The size after `n` ticks of shortage: a step per tick, the last one cut at the maximum or, if its sum
   overflows, lost.
   */
  function Grown(c: Config, actual: int, n: nat): int
    requires 0 < c.Step() && actual <= c.Max()
  {
    var steps := StepsFor(c.Max() - actual, c.Step());
    if n < steps then actual + n * c.Step()
    else if actual + steps * c.Step() <= MAX_INT64 then c.Max()
    else actual + (steps - 1) * c.Step()
  }

  /** One more tick of shortage. */
  lemma GrownStep(c: Config, actual: int, n: nat)
    requires 0 < c.Step() && 0 <= actual <= c.Max()
    ensures var d := Grow(c, Grown(c, actual, n));
            && 0 <= Grown(c, actual, n) <= c.Max()
            && Grown(c, actual, n + 1) == (if d.Resize? then d.target else Grown(c, actual, n))
            && (d.Resize? <==> n < StepsFor(c.Max() - actual, c.Step()) && actual + (n + 1) * c.Step() <= MAX_INT64)
  {
    var step, distance := c.Step(), c.Max() - actual;
    var steps := StepsFor(distance, step);
    if n < steps {
      StepsAhead(distance, step, n);
    } else if steps > 0 {
      StepsAhead(distance, step, steps - 1);
    }
    GrowIff(c, Grown(c, actual, n));
  }

  /** Before the last step but one there is room for a whole one, before the last for some of it. */
  lemma StepsAhead(distance: nat, step: nat, n: nat)
    requires step > 0 && n < StepsFor(distance, step)
    ensures 0 <= n * step < distance && (n + 1) * step == n * step + step
    ensures n + 1 < StepsFor(distance, step) ==> (n + 1) * step < distance
    ensures n + 1 == StepsFor(distance, step) ==> (n + 1) * step >= distance
  {
    StepsForLeast(distance, step, n);
    StepsForLeast(distance, step, n + 1);
    MulMonotone(0, n, step);
  }

  /** What a tick of shortage does. */
  lemma LowTick(c: Config, st: State, ticks: seq<Tick>, i: nat)
    requires i < |ticks| && Sustained(c, ticks, i + 1, true) && st.goal == st.actual
    ensures After(c, st, ticks[i]).goal == After(c, st, ticks[i]).actual
    ensures var d := Grow(c, st.actual);
            && DecisionAt(c, st, ticks[i]) == d
            && After(c, st, ticks[i]).actual == if d.Resize? then d.target else st.actual
  {
  }

  /** A size that has grown from `start` for `n` ticks. */
  ghost predicate HasGrown(c: Config, start: int, n: nat, st: State) {
    0 < c.Step() && 0 <= start <= c.Max() && st.actual == st.goal == Grown(c, start, n)
  }

  lemma GrownTick(c: Config, start: int, st: State, ticks: seq<Tick>, n: nat)
    requires HasGrown(c, start, n, st) && n < |ticks| && Sustained(c, ticks, n + 1, true)
    ensures HasGrown(c, start, n + 1, After(c, st, ticks[n]))
  {
    GrownStep(c, start, n);
    LowTick(c, st, ticks, n);
  }

  lemma {:induction false} GrowthUnderLow(c: Config, st: State, ticks: seq<Tick>, n: nat)
    requires HasGrown(c, st.actual, 0, st) && Sustained(c, ticks, n, true)
    ensures HasGrown(c, st.actual, n, StateAt(c, st, ticks, n))
  {
    if n > 0 {
      GrowthUnderLow(c, st, ticks, n - 1);
      GrownTick(c, st.actual, StateAt(c, st, ticks, n - 1), ticks, n - 1);
    }
  }

  /**
   At tick `n` of a shortage that found the size at `start`: the maximum is reached if and only if the fewest
   steps there can be are made and the last of them does not overflow, and the tick resizes if and only if a
   step is left that does not.
   */
  predicate Converging(c: Config, start: int, n: nat, st: State, t: Tick)
    requires 0 < c.Step() && start <= c.Max()
  {
    var steps := StepsFor(c.Max() - start, c.Step());
    && (st.actual == c.Max() <==> n >= steps && start + steps * c.Step() <= MAX_INT64)
    && (DecisionAt(c, st, t).Resize? <==> n < steps && start + (n + 1) * c.Step() <= MAX_INT64)
  }

  lemma GrownMeans(c: Config, start: int, st: State, ticks: seq<Tick>, n: nat)
    requires HasGrown(c, start, n, st) && n < |ticks| && Sustained(c, ticks, n + 1, true)
    ensures Converging(c, start, n, st, ticks[n])
  {
    LowTick(c, st, ticks, n);
    GrownStep(c, start, n);
    GrownReaches(c, start, n);
  }

  /**
   Under sustained shortage the maximum is reached after exactly the fewest steps there can be, if and only if
   the last of them does not overflow, and every tick until then resizes; after them nothing moves.
   */
  lemma GrowthConverges(c: Config, st: State, ticks: seq<Tick>, n: nat)
    requires 0 < c.Step() && 0 <= st.actual == st.goal <= c.Max() && n < |ticks| && Sustained(c, ticks, n + 1, true)
    ensures Converging(c, st.actual, n, StateAt(c, st, ticks, n), ticks[n])
  {
    NothingGrown(c, st);
    GrowthUnderLow(c, st, ticks, n);
    GrownMeans(c, st.actual, StateAt(c, st, ticks, n), ticks, n);
  }

  lemma NothingGrown(c: Config, st: State)
    requires 0 < c.Step() && 0 <= st.actual == st.goal <= c.Max()
    ensures HasGrown(c, st.actual, 0, st)
  {
    StepsForLeast(c.Max() - st.actual, c.Step(), 0);
  }

  lemma GrownReaches(c: Config, actual: int, n: nat)
    requires 0 < c.Step() && 0 <= actual <= c.Max()
    ensures var steps := StepsFor(c.Max() - actual, c.Step());
            Grown(c, actual, n) == c.Max() <==> n >= steps && actual + steps * c.Step() <= MAX_INT64
  {
    var steps := StepsFor(c.Max() - actual, c.Step());
    if n < steps {
      StepsAhead(c.Max() - actual, c.Step(), n);
    } else if steps > 0 {
      StepsAhead(c.Max() - actual, c.Step(), steps - 1);
    } else {
      StepsForLeast(c.Max() - actual, c.Step(), 0);
    }
  }

  /** A step whose bytes wrap to zero or less, or whose sum with the size leaves 64 bits, never grows anything. */
  lemma {:induction false} OversizedStepNeverGrows(c: Config, st: State, ticks: seq<Tick>, n: nat)
    requires 0 <= st.actual == st.goal <= MAX_INT64 && Sustained(c, ticks, n, true)
    requires c.Step() <= 0 || st.actual + c.Step() > MAX_INT64
    ensures StateAt(c, st, ticks, n).actual == StateAt(c, st, ticks, n).goal == st.actual
  {
    if n > 0 {
      OversizedStepNeverGrows(c, st, ticks, n - 1);
      GrowIff(c, st.actual);
    }
  }

  /** The hold-off clock of a sustained surplus, on its own: how often it has run out, and since when it runs. */
  datatype Clock = Clock(count: nat, since: Option<int>)

  function ClockAt(c: Config, ticks: seq<Tick>, n: nat): Clock
    requires n <= |ticks|
  {
    if n == 0 then Clock(0, None)
    else
      var before, now := ClockAt(c, ticks, n - 1), ticks[n - 1].now;
      if before.since.None? then before.(since := Some(now))
      else if now - before.since.value < c.reclaimHoldoff then before
      else Clock(before.count + 1, None)
  }

  lemma OneShrink(c: Config, actual: int, k: nat, from: int)
    requires 0 <= c.Min() && 0 < c.Step() && c.Min() < actual <= MAX_INT64 && actual == from - k * c.Step()
    ensures Reclaim(c, actual) == Resize(Greatest(c.Min(), from - (k + 1) * c.Step()))
  {
    assert (k + 1) * c.Step() == k * c.Step() + c.Step();
    ReclaimIff(c, actual);
  }

  /** What a tick of surplus does to a size above the minimum, and to one at it. */
  lemma SurplusTick(c: Config, st: State, ticks: seq<Tick>, i: nat)
    requires i < |ticks| && Sustained(c, ticks, i + 1, false) && st.goal == st.actual
    ensures var after, now := After(c, st, ticks[i]), ticks[i].now;
            && after.goal == after.actual
            && (st.actual <= c.Min() ==> after.actual == st.actual)
            && (st.actual > c.Min() ==>
                  if st.above.None? then after == st.(above := Some(now))
                  else if now - st.above.value < c.reclaimHoldoff then after == st
                  else
                    var d := Reclaim(c, st.actual);
                    after.above.None? && after.actual == if d.Resize? then d.target else st.actual)
  {
  }

  /** A size that has gone down from `start` once for every time the clock ran out. */
  ghost predicate HasShrunk(c: Config, start: int, clock: Clock, st: State) {
    && st.actual == st.goal == Greatest(c.Min(), start - clock.count * c.Step())
    && (st.actual > c.Min() ==> st.above == clock.since)
  }

  lemma ShrunkTick(c: Config, start: int, st: State, ticks: seq<Tick>, n: nat)
    requires 0 <= c.Min() && 0 < c.Step() && c.Min() <= start <= MAX_INT64
    requires n < |ticks| && Sustained(c, ticks, n + 1, false) && HasShrunk(c, start, ClockAt(c, ticks, n), st)
    ensures HasShrunk(c, start, ClockAt(c, ticks, n + 1), After(c, st, ticks[n]))
  {
    var k := ClockAt(c, ticks, n).count;
    MulMonotone(0, k, c.Step());
    MulMonotone(k, k + 1, c.Step());
    SurplusTick(c, st, ticks, n);
    if st.actual > c.Min() {
      OneShrink(c, st.actual, k, start);
    }
  }

  /** Every time the clock runs out, one step down, as long as there is something to reclaim. */
  lemma {:induction false} ShrinkageUnderSurplus(c: Config, st: State, ticks: seq<Tick>, n: nat)
    requires 0 <= c.Min() && 0 < c.Step() && c.Min() <= st.actual == st.goal <= MAX_INT64 && st.above.None?
    requires Sustained(c, ticks, n, false)
    ensures HasShrunk(c, st.actual, ClockAt(c, ticks, n), StateAt(c, st, ticks, n))
  {
    if n > 0 {
      ShrinkageUnderSurplus(c, st, ticks, n - 1);
      ShrunkTick(c, st.actual, StateAt(c, st, ticks, n - 1), ticks, n - 1);
    }
  }

  /** Ticks come every `period`, and the hold-off lasts `wait` of them. */
  ghost predicate Regular(c: Config, ticks: seq<Tick>, n: nat, period: nat, wait: nat) {
    && n <= |ticks| && period > 0 && 0 < wait
    && wait * period >= c.reclaimHoldoff && (wait - 1) * period < c.reclaimHoldoff
    && forall i, j :: 0 <= i <= j < n ==> ticks[j].now - ticks[i].now == (j - i) * period
  }

  /** After `n` ticks the clock has run out once every `wait + 1` of them. */
  ghost predicate InPhase(ticks: seq<Tick>, n: nat, clock: Clock, wait: nat) {
    var phase := n - clock.count * (wait + 1);
    && n <= |ticks| && 0 <= phase <= wait
    && clock.since == if phase == 0 then None else Some(ticks[n - phase].now)
  }

  lemma NextPhase(c: Config, ticks: seq<Tick>, n: nat, period: nat, wait: nat)
    requires n < |ticks| && Regular(c, ticks, n + 1, period, wait) && InPhase(ticks, n, ClockAt(c, ticks, n), wait)
    ensures InPhase(ticks, n + 1, ClockAt(c, ticks, n + 1), wait)
  {
    var count := ClockAt(c, ticks, n).count;
    var phase := n - count * (wait + 1);
    assert (count + 1) * (wait + 1) == count * (wait + 1) + (wait + 1);
    if phase > 0 {
      assert ticks[n].now - ticks[n - phase].now == phase * period;
      if phase < wait {
        MulMonotone(phase, wait - 1, period);
      }
    }
  }

  /** The clock runs out every `wait + 1` ticks. */
  lemma {:induction false} RegularClock(c: Config, ticks: seq<Tick>, n: nat, period: nat, wait: nat)
    requires Regular(c, ticks, n, period, wait)
    ensures InPhase(ticks, n, ClockAt(c, ticks, n), wait)
  {
    if n > 0 {
      RegularClock(c, ticks, n - 1, period, wait);
      NextPhase(c, ticks, n - 1, period, wait);
    }
  }

  /**
   Under sustained surplus and regular ticks the minimum is reached after exactly the fewest steps there can
   be, one every `wait + 1` ticks.
   */
  lemma ShrinkageConverges(c: Config, st: State, ticks: seq<Tick>, n: nat, period: nat, wait: nat)
    requires 0 <= c.Min() && 0 < c.Step() && c.Min() <= st.actual == st.goal <= MAX_INT64 && st.above.None?
    requires Sustained(c, ticks, n, false) && Regular(c, ticks, n, period, wait)
    ensures StateAt(c, st, ticks, n).actual == c.Min() <==> n >= StepsFor(st.actual - c.Min(), c.Step()) * (wait + 1)
  {
    var steps, count := StepsFor(st.actual - c.Min(), c.Step()), ClockAt(c, ticks, n).count;
    ShrinkageUnderSurplus(c, st, ticks, n);
    RegularClock(c, ticks, n, period, wait);
    StepsForLeast(st.actual - c.Min(), c.Step(), count);
    CyclesDone(n, count, steps, wait + 1);
  }

  lemma CyclesDone(n: nat, count: nat, steps: nat, cycle: nat)
    requires 0 <= n - count * cycle < cycle
    ensures count >= steps <==> n >= steps * cycle
  {
    if count >= steps {
      MulMonotone(steps, count, cycle);
    } else {
      MulMonotone(count + 1, steps, cycle);
      assert (count + 1) * cycle == count * cycle + cycle;
    }
  }
}
