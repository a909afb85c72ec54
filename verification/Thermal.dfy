/** The simulated machine's thermal model: three temperatures relaxing towards their equilibria. */
module Thermal {
  const GPU_LOAD_HEAT_C: real := 72.0
  const GPU_FAN_COOLING_C: real := 38.0
  const GPU_TIME_CONSTANT_S: real := 7.0
  const CPU_LOAD_HEAT_C: real := 58.0
  const CPU_FAN_COOLING_C: real := 26.0
  const CPU_TIME_CONSTANT_S: real := 5.0
  const SSD_BASE_C: real := 8.0
  const SSD_LOAD_HEAT_C: real := 9.0
  const SSD_TIME_CONSTANT_S: real := 45.0

  const U64_MAX: nat := 0xFFFF_FFFF_FFFF_FFFF

  function Clamp(x: real, low: real, high: real): (r: real)
    requires low <= high
    ensures low <= r <= high
  {
    if x < low then low else if x > high then high else x
  }

  function Max(a: real, b: real): (r: real)
    ensures r >= a && r >= b && (r == a || r == b)
  {
    if a >= b then a else b
  }

  // ------------------------------------------------------------------ load profiles

  datatype Stage = Stage(durationMs: nat, load: real)

  datatype LoadProfile = Constant(load: real) | Steps(stages: seq<Stage>)

  function Total(stages: seq<Stage>): nat {
    if stages == [] then 0 else Total(stages[..|stages| - 1]) + stages[|stages| - 1].durationMs
  }

  /** The stage running at `t` within one round: the first whose end lies beyond `t`. */
  ghost predicate RunsAt(stages: seq<Stage>, k: nat, t: nat)
    requires k < |stages|
  {
    Total(stages[..k]) <= t < Total(stages[..k + 1])
  }

  lemma {:induction false} TotalGrows(stages: seq<Stage>, i: nat, j: nat)
    requires i <= j <= |stages|
    ensures Total(stages[..i]) <= Total(stages[..j])
    decreases j
  {
    if i < j {
      TotalGrows(stages, i, j - 1);
      assert stages[..j][..j - 1] == stages[..j - 1];
    }
  }

  function StageAt(stages: seq<Stage>, t: nat, from: nat): (k: nat)
    requires from <= |stages|
    ensures from <= k <= |stages|
    decreases |stages| - from
  {
    if from == |stages| || t < Total(stages[..from + 1]) then from else StageAt(stages, t, from + 1)
  }

  function LoadAt(profile: LoadProfile, tMs: nat): real {
    match profile
    case Constant(load) => Clamp(load, 0.0, 1.0)
    case Steps(stages) =>
      if stages == [] then 0.0 else
      var total := Total(stages);
      var k := StageAt(stages, if total == 0 then 0 else tMs % total, 0);
      Clamp(stages[if k < |stages| then k else |stages| - 1].load, 0.0, 1.0)
  }

  method ComputeLoad(profile: LoadProfile, tMs: nat) returns (load: real)
    ensures load == LoadAt(profile, tMs)
  {
    match profile {
      case Constant(c) => load := Clamp(c, 0.0, 1.0);
      case Steps(stages) =>
        if stages == [] {
          return 0.0;
        }
        var total := Total(stages);
        var t := if total == 0 then 0 else tMs % total;
        var acc := 0;
        for k := 0 to |stages|
          invariant acc == Total(stages[..k])
          invariant StageAt(stages, t, 0) == StageAt(stages, t, k)
        {
          assert stages[..k + 1][..k] == stages[..k];
          acc := acc + stages[k].durationMs;
          if t < acc {
            return Clamp(stages[k].load, 0.0, 1.0);
          }
        }
        load := Clamp(stages[|stages| - 1].load, 0.0, 1.0);
    }
  }

  lemma {:induction false} StageAtFinds(stages: seq<Stage>, t: nat, from: nat, k: nat)
    requires k < |stages| && RunsAt(stages, k, t) && from <= k
    ensures StageAt(stages, t, from) == k
    decreases k - from
  {
    if from < k {
      TotalGrows(stages, from + 1, k);
      StageAtFinds(stages, t, from + 1, k);
    }
  }

  /** A stepped profile repeats: at `t` past any number of whole rounds, it gives the load of the stage `t` falls in. */
  lemma {:induction false} StepsRepeat(stages: seq<Stage>, rounds: nat, t: nat, k: nat)
    requires k < |stages| && RunsAt(stages, k, t)
    ensures LoadAt(Steps(stages), rounds * Total(stages) + t) == Clamp(stages[k].load, 0.0, 1.0)
  {
    var total := Total(stages);
    TotalGrows(stages, k + 1, |stages|);
    assert stages[..|stages|] == stages;
    assert t < total;
    RemainderOf(rounds, total, t);
    StageAtFinds(stages, t, 0, k);
  }

  lemma {:induction false} RemainderOf(rounds: nat, total: nat, t: nat)
    requires t < total
    ensures (rounds * total + t) % total == t
  {
    var x := rounds * total + t;
    var q, r := x / total, x % total;
    assert x == q * total + r;
    assert (q - rounds) * total == t - r;
    assert (rounds - q) * total == r - t;
    if q > rounds {
      AtLeastOnce(q - rounds, total);
    } else if q < rounds {
      AtLeastOnce(rounds - q, total);
    }
  }

  lemma {:induction false} AtLeastOnce(k: int, n: nat)
    requires k >= 1
    ensures k * n >= n
  {}

  // ------------------------------------------------------------------ the machine

  datatype Config = Config(ambient: real, gpuLoad: LoadProfile, cpuLoad: LoadProfile)

  datatype Machine = Machine(
    simMs: nat,
    gpuTemp: real,
    cpuTemp: real,
    ssdTemp: real,
    fanDuties: seq<real>,
    gpuFanDuty: real)

  function Sum(duties: seq<real>): real {
    if duties == [] then 0.0 else Sum(duties[..|duties| - 1]) + duties[|duties| - 1]
  }

  function SystemDuty(duties: seq<real>): real {
    if duties == [] then 0.0 else Sum(duties) / |duties| as real
  }

  function StepSeconds(dtMs: nat): real {
    Clamp(dtMs as real / 1000.0, 0.0, 60.0)
  }

  /** First-order relaxation, never below ambient. */
  function Relaxed(temp: real, target: real, dt: real, timeConstant: real, ambient: real): real
    requires timeConstant > 0.0
  {
    Max(Toward(temp, target, Clamp(dt / timeConstant, 0.0, 1.0)), ambient)
  }

  function Toward(temp: real, target: real, alpha: real): real {
    temp + (target - temp) * alpha
  }

  function GpuTarget(m: Machine, config: Config): real {
    var airflow := Clamp(0.5 * m.gpuFanDuty + 0.5 * SystemDuty(m.fanDuties), 0.0, 100.0);
    config.ambient + GPU_LOAD_HEAT_C * LoadAt(config.gpuLoad, m.simMs) - GPU_FAN_COOLING_C * (airflow / 100.0)
  }

  function CpuTarget(m: Machine, config: Config): real {
    config.ambient + CPU_LOAD_HEAT_C * LoadAt(config.cpuLoad, m.simMs)
    - CPU_FAN_COOLING_C * (SystemDuty(m.fanDuties) / 100.0)
  }

  function SsdTarget(m: Machine, config: Config): real {
    config.ambient + SSD_BASE_C
    + SSD_LOAD_HEAT_C * Max(LoadAt(config.cpuLoad, m.simMs), LoadAt(config.gpuLoad, m.simMs)) * 0.5
  }

  function Later(m: Machine, dtMs: nat): Machine {
    m.(simMs := if m.simMs + dtMs > U64_MAX then U64_MAX else m.simMs + dtMs)
  }

  function Advance(m: Machine, dtMs: nat, config: Config): Machine {
    var dt := StepSeconds(dtMs);
    if dt <= 0.0 then m else
    var now := Later(m, dtMs);
    now.(gpuTemp := Relaxed(m.gpuTemp, GpuTarget(now, config), dt, GPU_TIME_CONSTANT_S, config.ambient),
         cpuTemp := Relaxed(m.cpuTemp, CpuTarget(now, config), dt, CPU_TIME_CONSTANT_S, config.ambient),
         ssdTemp := Relaxed(m.ssdTemp, SsdTarget(now, config), dt, SSD_TIME_CONSTANT_S, config.ambient))
  }

  /** The state as the program keeps it; `Advance` is what one call does to it. */
  class MockState {
    var machine: Machine
    var gpuLoad: real
    var cpuLoad: real

    constructor (machine: Machine, config: Config)
      ensures this.machine == machine
    {
      this.machine, gpuLoad, cpuLoad := machine, LoadAt(config.gpuLoad, 0), LoadAt(config.cpuLoad, 0);
    }

    method Step(dtMs: nat, config: Config)
      modifies this
      ensures machine == Advance(old(machine), dtMs, config)
      ensures StepSeconds(dtMs) > 0.0 ==>
        gpuLoad == LoadAt(config.gpuLoad, machine.simMs) && cpuLoad == LoadAt(config.cpuLoad, machine.simMs)
    {
      hide Toward, SystemDuty, LoadAt, Clamp;
      var dt := Clamp(dtMs as real / 1000.0, 0.0, 60.0);
      if dt <= 0.0 {
        return;
      }
      machine := Later(machine, dtMs);
      gpuLoad := ComputeLoad(config.gpuLoad, machine.simMs);
      cpuLoad := ComputeLoad(config.cpuLoad, machine.simMs);
      var system := SystemDuty(machine.fanDuties);
      var airflow := Clamp(0.5 * machine.gpuFanDuty + 0.5 * system, 0.0, 100.0);
      var gpuTarget := config.ambient + GPU_LOAD_HEAT_C * gpuLoad - GPU_FAN_COOLING_C * (airflow / 100.0);
      var gpuTemp := Toward(machine.gpuTemp, gpuTarget, Clamp(dt / GPU_TIME_CONSTANT_S, 0.0, 1.0));
      var cpuTarget := config.ambient + CPU_LOAD_HEAT_C * cpuLoad - CPU_FAN_COOLING_C * (system / 100.0);
      var cpuTemp := Toward(machine.cpuTemp, cpuTarget, Clamp(dt / CPU_TIME_CONSTANT_S, 0.0, 1.0));
      var ssdTarget := config.ambient + SSD_BASE_C + SSD_LOAD_HEAT_C * Max(cpuLoad, gpuLoad) * 0.5;
      var ssdTemp := Toward(machine.ssdTemp, ssdTarget, Clamp(dt / SSD_TIME_CONSTANT_S, 0.0, 1.0));
      machine := machine.(gpuTemp := Max(gpuTemp, config.ambient),
                          cpuTemp := Max(cpuTemp, config.ambient),
                          ssdTemp := Max(ssdTemp, config.ambient));
    }
  }

  // ------------------------------------------------------------------ one relaxation

  lemma {:induction false} NonNegative(x: real, y: real)
    requires x >= 0.0 && y >= 0.0
    ensures x * y >= 0.0
  {}

  lemma {:induction false} TowardBetween(t: real, target: real, alpha: real)
    requires 0.0 <= alpha <= 1.0
    ensures t <= target ==> t <= Toward(t, target, alpha) <= target
    ensures target <= t ==> target <= Toward(t, target, alpha) <= t
  {
    if t <= target {
      NonNegative(target - t, alpha);
      NonNegative(target - t, 1.0 - alpha);
      assert target - Toward(t, target, alpha) == (target - t) * (1.0 - alpha);
    }
    if target <= t {
      NonNegative(t - target, alpha);
      NonNegative(t - target, 1.0 - alpha);
      assert Toward(t, target, alpha) - target == (t - target) * (1.0 - alpha);
      assert t - Toward(t, target, alpha) == (t - target) * alpha;
    }
  }

  lemma {:induction false} TowardMonotone(t: real, u: real, target: real, goal: real, alpha: real)
    requires 0.0 <= alpha <= 1.0 && t <= u && target <= goal
    ensures Toward(t, target, alpha) <= Toward(u, goal, alpha)
  {
    NonNegative(u - t, 1.0 - alpha);
    NonNegative(goal - target, alpha);
    assert Toward(u, goal, alpha) - Toward(t, target, alpha) == (u - t) * (1.0 - alpha) + (goal - target) * alpha;
  }

  lemma {:induction false} RelaxedBounds(temp: real, target: real, dt: real, timeConstant: real, ambient: real)
    requires timeConstant > 0.0
    ensures var r := Relaxed(temp, target, dt, timeConstant, ambient);
            ambient <= r <= Max(Max(temp, target), ambient)
  {
    hide Toward;
    TowardBetween(temp, target, Clamp(dt / timeConstant, 0.0, 1.0));
  }

  lemma {:induction false} RelaxedMonotone(t: real, u: real, target: real, goal: real, dt: real, timeConstant: real,
                                           ambient: real)
    requires timeConstant > 0.0 && t <= u && target <= goal
    ensures Relaxed(t, target, dt, timeConstant, ambient) <= Relaxed(u, goal, dt, timeConstant, ambient)
  {
    hide Toward;
    TowardMonotone(t, u, target, goal, Clamp(dt / timeConstant, 0.0, 1.0));
  }

  // ------------------------------------------------------------------ more airflow is never hotter

  ghost predicate AtLeast(a: seq<real>, b: seq<real>) {
    |a| == |b| && forall i | 0 <= i < |a| :: a[i] >= b[i]
  }

  lemma {:induction false} SumAtLeast(a: seq<real>, b: seq<real>)
    requires AtLeast(a, b)
    ensures Sum(a) >= Sum(b)
  {
    if a != [] {
      SumAtLeast(a[..|a| - 1], b[..|b| - 1]);
    }
  }

  lemma {:induction false} SystemDutyAtLeast(a: seq<real>, b: seq<real>)
    requires AtLeast(a, b)
    ensures SystemDuty(a) >= SystemDuty(b)
  {
    SumAtLeast(a, b);
    if a != [] {
      var n := |a| as real;
      assert (Sum(a) - Sum(b)) / n >= 0.0;
      assert Sum(a) / n - Sum(b) / n == (Sum(a) - Sum(b)) / n;
    }
  }

  /** `a` has the same clock as `b` and is nowhere hotter. */
  ghost predicate NoHotter(a: Machine, b: Machine) {
    && a.simMs == b.simMs
    && a.gpuTemp <= b.gpuTemp && a.cpuTemp <= b.cpuTemp && a.ssdTemp <= b.ssdTemp
  }

  lemma {:induction false} AdvanceNoHotter(a: Machine, b: Machine, dtMs: nat, config: Config)
    requires NoHotter(a, b) && AtLeast(a.fanDuties, b.fanDuties) && a.gpuFanDuty >= b.gpuFanDuty
    ensures NoHotter(Advance(a, dtMs, config), Advance(b, dtMs, config))
  {
    var dt := StepSeconds(dtMs);
    var x, y := Later(a, dtMs), Later(b, dtMs);
    SystemDutyAtLeast(a.fanDuties, b.fanDuties);
    TargetsNoHigher(x, y, config);
    RelaxedMonotone(a.gpuTemp, b.gpuTemp, GpuTarget(x, config), GpuTarget(y, config), dt, GPU_TIME_CONSTANT_S, config.ambient);
    RelaxedMonotone(a.cpuTemp, b.cpuTemp, CpuTarget(x, config), CpuTarget(y, config), dt, CPU_TIME_CONSTANT_S, config.ambient);
    RelaxedMonotone(a.ssdTemp, b.ssdTemp, SsdTarget(x, config), SsdTarget(y, config), dt, SSD_TIME_CONSTANT_S, config.ambient);
  }

  lemma {:induction false} TargetsNoHigher(x: Machine, y: Machine, config: Config)
    requires x.simMs == y.simMs && SystemDuty(x.fanDuties) >= SystemDuty(y.fanDuties) && x.gpuFanDuty >= y.gpuFanDuty
    ensures GpuTarget(x, config) <= GpuTarget(y, config)
    ensures CpuTarget(x, config) <= CpuTarget(y, config)
    ensures SsdTarget(x, config) == SsdTarget(y, config)
  {
    hide SystemDuty, LoadAt;
  }

  /** Set the duties, then let time pass. */
  datatype Action = Action(fanDuties: seq<real>, gpuFanDuty: real, dtMs: nat)

  function Apply(m: Machine, action: Action, config: Config): Machine {
    Advance(m.(fanDuties := action.fanDuties, gpuFanDuty := action.gpuFanDuty), action.dtMs, config)
  }

  function Run(m: Machine, actions: seq<Action>, config: Config): Machine {
    if actions == [] then m else Apply(Run(m, actions[..|actions| - 1], config), actions[|actions| - 1], config)
  }

  /** The same steps of time, with at least as much airflow in each. */
  ghost predicate MoreAirflow(a: seq<Action>, b: seq<Action>) {
    |a| == |b| && forall i | 0 <= i < |a| ::
      a[i].dtMs == b[i].dtMs && a[i].gpuFanDuty >= b[i].gpuFanDuty && AtLeast(a[i].fanDuties, b[i].fanDuties)
  }

  /** More airflow is never hotter, over every run. */
  lemma {:induction false} MoreAirflowNeverHotter(x: Machine, y: Machine, a: seq<Action>, b: seq<Action>,
                                                  config: Config)
    requires NoHotter(x, y) && MoreAirflow(a, b)
    ensures NoHotter(Run(x, a, config), Run(y, b, config))
  {
    if a != [] {
      var n := |a| - 1;
      MoreAirflowNeverHotter(x, y, a[..n], b[..n], config);
      var p, q := Run(x, a[..n], config), Run(y, b[..n], config);
      AdvanceNoHotter(p.(fanDuties := a[n].fanDuties, gpuFanDuty := a[n].gpuFanDuty),
                      q.(fanDuties := b[n].fanDuties, gpuFanDuty := b[n].gpuFanDuty), a[n].dtMs, config);
    }
  }

  // ------------------------------------------------------------------ bounds

  /** After a step that takes time, each temperature is at least ambient and at most the larger of where it was and where it tends. */
  lemma {:induction false} AdvanceBounds(m: Machine, dtMs: nat, config: Config)
    requires StepSeconds(dtMs) > 0.0
    ensures var r, now, c := Advance(m, dtMs, config), Later(m, dtMs), config.ambient;
            && c <= r.gpuTemp <= Max(Max(m.gpuTemp, GpuTarget(now, config)), c)
            && c <= r.cpuTemp <= Max(Max(m.cpuTemp, CpuTarget(now, config)), c)
            && c <= r.ssdTemp <= Max(Max(m.ssdTemp, SsdTarget(now, config)), c)
  {
    var dt, now := StepSeconds(dtMs), Later(m, dtMs);
    RelaxedBounds(m.gpuTemp, GpuTarget(now, config), dt, GPU_TIME_CONSTANT_S, config.ambient);
    RelaxedBounds(m.cpuTemp, CpuTarget(now, config), dt, CPU_TIME_CONSTANT_S, config.ambient);
    RelaxedBounds(m.ssdTemp, SsdTarget(now, config), dt, SSD_TIME_CONSTANT_S, config.ambient);
  }

  lemma {:induction false} LoadIsAShare(profile: LoadProfile, tMs: nat)
    ensures 0.0 <= LoadAt(profile, tMs) <= 1.0
  {}

  ghost predicate NoHotterThan(m: Machine, gpu: real, cpu: real, ssd: real) {
    m.gpuTemp <= gpu && m.cpuTemp <= cpu && m.ssdTemp <= ssd
  }

  predicate RealDuties(action: Action) {
    action.gpuFanDuty >= 0.0 && forall i | 0 <= i < |action.fanDuties| :: action.fanDuties[i] >= 0.0
  }

  lemma {:induction false} SumOfDuties(duties: seq<real>)
    requires forall i | 0 <= i < |duties| :: duties[i] >= 0.0
    ensures Sum(duties) >= 0.0 && SystemDuty(duties) >= 0.0
  {
    if duties != [] {
      SumOfDuties(duties[..|duties| - 1]);
      assert Sum(duties) >= 0.0;
      Share(Sum(duties), |duties|);
    }
  }

  lemma {:induction false} Share(x: real, n: nat)
    requires x >= 0.0 && n > 0
    ensures x / n as real >= 0.0
  {}

  /** No run of any length, under any load, heats a machine past its start or its full-load heat. */
  lemma {:induction false} FullLoadBound(m: Machine, actions: seq<Action>, config: Config, gpu: real, cpu: real,
                                         ssd: real)
    requires gpu == Max(m.gpuTemp, config.ambient + GPU_LOAD_HEAT_C)
    requires cpu == Max(m.cpuTemp, config.ambient + CPU_LOAD_HEAT_C)
    requires ssd == Max(m.ssdTemp, config.ambient + SSD_BASE_C + SSD_LOAD_HEAT_C * 0.5)
    requires forall i | 0 <= i < |actions| :: RealDuties(actions[i])
    ensures NoHotterThan(Run(m, actions, config), gpu, cpu, ssd)
  {
    if actions != [] {
      var n := |actions| - 1;
      FullLoadBound(m, actions[..n], config, gpu, cpu, ssd);
      var action := actions[n];
      var p := Run(m, actions[..n], config).(fanDuties := action.fanDuties, gpuFanDuty := action.gpuFanDuty);
      assert RealDuties(action);
      SumOfDuties(action.fanDuties);
      StepBelowFullLoad(p, action.dtMs, config, gpu, cpu, ssd);
    }
  }

  lemma {:induction false} StepBelowFullLoad(p: Machine, dtMs: nat, config: Config, gpu: real, cpu: real, ssd: real)
    requires NoHotterThan(p, gpu, cpu, ssd) && SystemDuty(p.fanDuties) >= 0.0
    requires gpu >= config.ambient + GPU_LOAD_HEAT_C && cpu >= config.ambient + CPU_LOAD_HEAT_C
    requires ssd >= config.ambient + SSD_BASE_C + SSD_LOAD_HEAT_C * 0.5
    ensures NoHotterThan(Advance(p, dtMs, config), gpu, cpu, ssd)
  {
    hide Relaxed, SystemDuty, LoadAt;
    if StepSeconds(dtMs) > 0.0 {
      AdvanceBounds(p, dtMs, config);
      var now := Later(p, dtMs);
      LoadIsAShare(config.gpuLoad, now.simMs);
      LoadIsAShare(config.cpuLoad, now.simMs);
      assert GpuTarget(now, config) <= gpu && CpuTarget(now, config) <= cpu && SsdTarget(now, config) <= ssd;
    }
  }

  // ------------------------------------------------------------------ equilibrium, and how fast it is approached

  lemma {:induction false} SumOfEqual(duties: seq<real>, d: real)
    requires forall i | 0 <= i < |duties| :: duties[i] == d
    ensures Sum(duties) == |duties| as real * d
  {
    if duties != [] {
      SumOfEqual(duties[..|duties| - 1], d);
    }
  }

  lemma {:induction false} MeanOfEqual(duties: seq<real>, d: real)
    requires duties != [] && forall i | 0 <= i < |duties| :: duties[i] == d
    ensures SystemDuty(duties) == d
  {
    SumOfEqual(duties, d);
    Undivided(|duties| as real, d);
  }

  lemma {:induction false} Undivided(n: real, d: real)
    requires n != 0.0
    ensures n * d / n == d
  {}

  /** Where the temperatures tend under constant loads, with every fan of the system at `d` and the card's own at `f`. */
  lemma {:induction false} Equilibrium(m: Machine, config: Config, gpu: real, cpu: real, d: real, f: real)
    requires config.gpuLoad == Constant(gpu) && config.cpuLoad == Constant(cpu)
    requires 0.0 <= gpu <= 1.0 && 0.0 <= cpu <= 1.0 && 0.0 <= d <= 100.0 && 0.0 <= f <= 100.0
    requires m.fanDuties != [] && m.gpuFanDuty == f && forall i | 0 <= i < |m.fanDuties| :: m.fanDuties[i] == d
    ensures GpuTarget(m, config) == config.ambient + 72.0 * gpu - 0.19 * (f + d)
    ensures CpuTarget(m, config) == config.ambient + 58.0 * cpu - 0.26 * d
    ensures SsdTarget(m, config) == config.ambient + 8.0 + 4.5 * (if cpu >= gpu then cpu else gpu)
  {
    MeanOfEqual(m.fanDuties, d);
    hide SystemDuty;
  }

  function Power(x: real, n: nat): real {
    if n == 0 then 1.0 else Power(x, n - 1) * x
  }

  /** The part of the way to the equilibrium that is left after `dt` seconds. */
  function Left(dt: real, timeConstant: real): real
    requires timeConstant > 0.0
  {
    if dt >= timeConstant then 0.0 else 1.0 - dt / timeConstant
  }

  lemma {:induction false} RelaxedApproaches(temp: real, target: real, dt: real, timeConstant: real, ambient: real)
    requires timeConstant > 0.0 && dt > 0.0 && temp >= ambient && target >= ambient
    ensures Relaxed(temp, target, dt, timeConstant, ambient) - target == (temp - target) * Left(dt, timeConstant)
  {
    Ratio(dt, timeConstant);
    var alpha := Clamp(dt / timeConstant, 0.0, 1.0);
    TowardBetween(temp, target, alpha);
    assert Toward(temp, target, alpha) - target == (temp - target) * (1.0 - alpha);
  }

  lemma {:induction false} Ratio(x: real, y: real)
    requires x > 0.0 && y > 0.0
    ensures x / y > 0.0 && (x >= y <==> x / y >= 1.0)
  {
    var q := x / y;
    assert q * y == x;
    if q <= 0.0 {
      NonNegative(-q, y);
      assert false;
    }
    if x >= y && q < 1.0 {
      Smaller(q, y);
      assert false;
    }
    if q >= 1.0 {
      NonNegative(q - 1.0, y);
    }
  }

  lemma {:induction false} Smaller(q: real, y: real)
    requires 0.0 < q < 1.0 && y > 0.0
    ensures q * y < y
  {
    assert (1.0 - q) * y > 0.0;
  }

  function Repeated(action: Action, n: nat): (actions: seq<Action>)
    ensures |actions| == n
  {
    if n == 0 then [] else Repeated(action, n - 1) + [action]
  }

  /** Equal steps under constant loads do not change where the temperatures tend. */
  lemma {:induction false} SameTargets(a: Machine, b: Machine, config: Config)
    requires config.gpuLoad.Constant? && config.cpuLoad.Constant?
    requires a.fanDuties == b.fanDuties && a.gpuFanDuty == b.gpuFanDuty
    ensures GpuTarget(a, config) == GpuTarget(b, config) && CpuTarget(a, config) == CpuTarget(b, config)
    ensures SsdTarget(a, config) == SsdTarget(b, config)
  {}

  /** In `n` steps the temperature closed on its target, keeping that part of the distance in each. */
  ghost predicate Closed(from: real, to: real, target: real, left: real, n: nat) {
    to - target == (from - target) * Power(left, n)
  }

  lemma {:induction false} ClosedNone(x: real, target: real, left: real)
    ensures Closed(x, x, target, left, 0)
  {}

  lemma {:induction false} ClosedMore(x: real, y: real, z: real, target: real, left: real, n: nat)
    requires Closed(x, y, target, left, n) && z - target == (y - target) * left
    ensures Closed(x, z, target, left, n + 1)
  {
    hide Power;
    var d, p := x - target, Power(left, n);
    assert Power(left, n + 1) == p * left by { PowerStep(left, n); }
    assert d * p * left == d * (p * left);
  }

  lemma {:induction false} PowerStep(x: real, n: nat)
    ensures Power(x, n + 1) == Power(x, n) * x
  {}

  /** Every temperature closed on where the machine tends, which has not changed. */
  ghost predicate AllClosed(m: Machine, r: Machine, config: Config, dt: real, n: nat) {
    && r.fanDuties == m.fanDuties && r.gpuFanDuty == m.gpuFanDuty
    && r.gpuTemp >= config.ambient && r.cpuTemp >= config.ambient && r.ssdTemp >= config.ambient
    && Closed(m.gpuTemp, r.gpuTemp, GpuTarget(m, config), Left(dt, 7.0), n)
    && Closed(m.cpuTemp, r.cpuTemp, CpuTarget(m, config), Left(dt, 5.0), n)
    && Closed(m.ssdTemp, r.ssdTemp, SsdTarget(m, config), Left(dt, 45.0), n)
  }

  /** Nothing is, or tends to be, below ambient. */
  ghost predicate AboveAmbient(m: Machine, config: Config) {
    && m.gpuTemp >= config.ambient && m.cpuTemp >= config.ambient && m.ssdTemp >= config.ambient
    && GpuTarget(m, config) >= config.ambient && CpuTarget(m, config) >= config.ambient
    && SsdTarget(m, config) >= config.ambient
  }

  /**
   * Under constant loads and duties every temperature closes on its equilibrium, keeping the same part
   * of the distance in each step: exactly, over any number of steps.
   */
  lemma {:induction false} Converges(m: Machine, action: Action, n: nat, config: Config)
    requires config.gpuLoad.Constant? && config.cpuLoad.Constant? && StepSeconds(action.dtMs) > 0.0
    requires AboveAmbient(m, config) && m.fanDuties == action.fanDuties && m.gpuFanDuty == action.gpuFanDuty
    ensures AllClosed(m, Run(m, Repeated(action, n), config), config, StepSeconds(action.dtMs), n)
  {
    hide GpuTarget, CpuTarget, SsdTarget, Closed, Advance, StepSeconds;
    var dt := StepSeconds(action.dtMs);
    if n == 0 {
      ClosedNone(m.gpuTemp, GpuTarget(m, config), Left(dt, 7.0));
      ClosedNone(m.cpuTemp, CpuTarget(m, config), Left(dt, 5.0));
      ClosedNone(m.ssdTemp, SsdTarget(m, config), Left(dt, 45.0));
    } else {
      Converges(m, action, n - 1, config);
      assert Repeated(action, n)[..n - 1] == Repeated(action, n - 1);
      var p := Run(m, Repeated(action, n - 1), config);
      assert p.(fanDuties := action.fanDuties, gpuFanDuty := action.gpuFanDuty) == p;
      ClosesOnce(m, p, action.dtMs, config, n - 1);
    }
  }

  lemma {:induction false} ClosesOnce(m: Machine, p: Machine, dtMs: nat, config: Config, n: nat)
    requires config.gpuLoad.Constant? && config.cpuLoad.Constant? && StepSeconds(dtMs) > 0.0
    requires AboveAmbient(m, config) && AllClosed(m, p, config, StepSeconds(dtMs), n)
    ensures AllClosed(m, Advance(p, dtMs, config), config, StepSeconds(dtMs), n + 1)
  {
    hide GpuTarget, CpuTarget, SsdTarget, Relaxed, Left, StepSeconds, Closed;
    var dt, now, r := StepSeconds(dtMs), Later(p, dtMs), Advance(p, dtMs, config);
    SameTargets(now, m, config);
    AdvanceBounds(p, dtMs, config);
    RelaxedApproaches(p.gpuTemp, GpuTarget(m, config), dt, 7.0, config.ambient);
    RelaxedApproaches(p.cpuTemp, CpuTarget(m, config), dt, 5.0, config.ambient);
    RelaxedApproaches(p.ssdTemp, SsdTarget(m, config), dt, 45.0, config.ambient);
    ClosedMore(m.gpuTemp, p.gpuTemp, r.gpuTemp, GpuTarget(m, config), Left(dt, 7.0), n);
    ClosedMore(m.cpuTemp, p.cpuTemp, r.cpuTemp, CpuTarget(m, config), Left(dt, 5.0), n);
    ClosedMore(m.ssdTemp, p.ssdTemp, r.ssdTemp, SsdTarget(m, config), Left(dt, 45.0), n);
  }

  /** The simulated clock counts every millisecond that is not a rounding to zero, up to its largest value. */
  lemma {:induction false} ClockAdvances(m: Machine, dtMs: nat, config: Config)
    requires m.simMs <= U64_MAX
    ensures var r := Advance(m, dtMs, config);
            r.simMs == if m.simMs + dtMs <= 0xFFFF_FFFF_FFFF_FFFF then m.simMs + dtMs else 0xFFFF_FFFF_FFFF_FFFF
  {
    hide Relaxed, GpuTarget, CpuTarget, SsdTarget;
  }

  /** A step is counted in seconds, and never as more than a minute. */
  lemma {:induction false} SecondsOf(dtMs: nat)
    ensures dtMs <= 60000 ==> StepSeconds(dtMs) * 1000.0 == dtMs as real
    ensures dtMs > 60000 ==> StepSeconds(dtMs) == 60.0
  {}

  lemma {:induction false} NoTimeAtAll(stages: seq<Stage>)
    requires forall i | 0 <= i < |stages| :: stages[i].durationMs == 0
    ensures Total(stages) == 0
  {
    if stages != [] {
      NoTimeAtAll(stages[..|stages| - 1]);
    }
  }

  lemma {:induction false} NeverBefore(stages: seq<Stage>, t: nat, from: nat)
    requires from <= |stages| && forall i | 0 <= i < |stages| :: stages[i].durationMs == 0
    ensures StageAt(stages, t, from) == |stages|
    decreases |stages| - from
  {
    if from < |stages| {
      NoTimeAtAll(stages[..from + 1]);
      NeverBefore(stages, t, from + 1);
    }
  }

  /** A profile without stages is no load; one whose stages take no time is its last stage; no fans move no air. */
  lemma {:induction false} Degenerate(stages: seq<Stage>, t: nat)
    requires forall i | 0 <= i < |stages| :: stages[i].durationMs == 0
    ensures stages == [] ==> LoadAt(Steps(stages), t) == 0.0
    ensures stages != [] ==> LoadAt(Steps(stages), t) == Clamp(stages[|stages| - 1].load, 0.0, 1.0)
    ensures SystemDuty([]) == 0.0
  {
    NoTimeAtAll(stages);
    NeverBefore(stages, 0, 0);
  }
}
