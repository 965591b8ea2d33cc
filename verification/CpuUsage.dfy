/**
 The cpu ratio of the agent, computed over one shared pair of records (`last_stat_`, `cur_stat_`) that the
 interrupt and network collectors shift as well.
 */
module CpuUsage {
  import opened LumiaTypes

  datatype Cpu = Cpu(
    user: int,
    nice: int,
    system: int,
    idle: int,
    iowait: int,
    irq: int,
    softirq: int,
    steal: int,
    guest: int)

  /** One statistics record, as far as the collectors write it. */
  datatype Resources = Resources(
    cpu: Cpu,
    interrupts: int,
    softInterrupts: int,
    netInBits: int,
    netOutBits: int,
    netInPackets: int,
    netOutPackets: int)

  /** The result of a floating-point division, rounding aside. */
  datatype Double = NotANumber | Infinite | Finite(value: real)

  datatype Stat = Stat(last: Resources, cur: Resources, cpuUsed: Double)

  datatype Interrupts = Interrupts(hard: int, soft: int)
  datatype Net = Net(inBits: int, outBits: int, inPackets: int, outPackets: int)

  /** What one collection cycle reads; `None` and `false` are failed reads. */
  datatype Cycle = Cycle(cpu: Option<Cpu>, memory: bool, interrupts: Option<Interrupts>, io: bool, net: Option<Net>)

  const NO_TIME := Cpu(0, 0, 0, 0, 0, 0, 0, 0, 0)
  const ZERO := Resources(NO_TIME, 0, 0, 0, 0, 0, 0)
  const BOOTED := Stat(ZERO, ZERO, Finite(0.0))

  function Total(c: Cpu): int {
    c.user + c.nice + c.system + c.idle + c.iowait + c.irq + c.softirq + c.steal + c.guest
  }

  function Used(c: Cpu): int {
    c.user + c.system + c.nice + c.irq + c.softirq + c.steal + c.guest
  }

  function Divide(a: int, b: nat): Double
    requires a >= 0
  {
    if b != 0 then Finite(a as real / b as real) else if a == 0 then NotANumber else Infinite
  }

  /** A sample is usable after another when neither its total nor its used time went down. */
  predicate Usable(a: Cpu, b: Cpu) {
    Total(a) <= Total(b) && Used(a) <= Used(b)
  }

  function Usage(a: Cpu, b: Cpu): Double
    requires Usable(a, b)
  {
    Divide(Used(b) - Used(a), Total(b) - Total(a))
  }

  // ---------------------------------------------------------------- what the collectors do to the records

  function CpuStep(s: Stat, sample: Cpu): Stat {
    var cur := ZERO.(cpu := sample);
    Stat(s.cur, cur, if Usable(s.cur.cpu, sample) then Usage(s.cur.cpu, sample) else s.cpuUsed)
  }

  function InterruptStep(s: Stat, i: Interrupts): Stat {
    s.(last := s.cur, cur := s.cur.(interrupts := i.hard, softInterrupts := i.soft))
  }

  function NetStep(s: Stat, n: Net): Stat {
    s.(last := s.cur,
    cur := s.cur.(netInBits := n.inBits, netOutBits := n.outBits, netInPackets := n.inPackets, netOutPackets := n.outPackets))
  }

  /** A cycle stops at the first collector that fails. */
  function CycleStep(s: Stat, c: Cycle): Stat {
    if c.cpu.None? then s
    else
      var s1 := CpuStep(s, c.cpu.value);
      if !Usable(s.cur.cpu, c.cpu.value) || !c.memory || c.interrupts.None? then s1
      else
        var s2 := InterruptStep(s1, c.interrupts.value);
        if !c.io || c.net.None? then s2 else NetStep(s2, c.net.value)
  }

  function Collect(s: Stat, cs: seq<Cycle>): Stat {
    if cs == [] then s else CycleStep(Collect(s, cs[..|cs| - 1]), cs[|cs| - 1])
  }

  // ---------------------------------------------------------------- what they should measure

  /** The samples read over a run, after an all-zero one. */
  function Samples(cs: seq<Cycle>): (samples: seq<Cpu>)
    ensures |samples| > 0
  {
    if cs == [] then [NO_TIME]
    else Samples(cs[..|cs| - 1]) + match cs[|cs| - 1].cpu case None => [] case Some(c) => [c]
  }

  /** The ratio between the last two consecutive samples that are usable one after the other. */
  function Measured(samples: seq<Cpu>): Double {
    var n := |samples|;
    if n < 2 then Finite(0.0)
    else if Usable(samples[n - 2], samples[n - 1]) then Usage(samples[n - 2], samples[n - 1])
    else Measured(samples[..n - 1])
  }

  /** The counters of the current record after a cycle: which collectors ran is read off which counters are new. */
  lemma CycleTable(s: Stat, c: Cycle)
    ensures var s' := CycleStep(s, c);
            var counted := c.cpu.Some? && Usable(s.cur.cpu, c.cpu.value) && c.memory && c.interrupts.Some?;
            var all := counted && c.io && c.net.Some?;
            && (c.cpu.None? ==> s' == s)
            && (c.cpu.Some? ==>
                  && s'.cur.interrupts == (if counted then c.interrupts.value.hard else 0)
                  && s'.cur.softInterrupts == (if counted then c.interrupts.value.soft else 0)
                  && s'.cur.netInBits == (if all then c.net.value.inBits else 0)
                  && s'.cur.netOutBits == (if all then c.net.value.outBits else 0)
                  && s'.cur.netInPackets == (if all then c.net.value.inPackets else 0)
                  && s'.cur.netOutPackets == (if all then c.net.value.outPackets else 0))
  {
  }

  lemma CycleMeasures(s: Stat, c: Cycle)
    ensures var s' := CycleStep(s, c);
            && s'.cur.cpu == (if c.cpu.None? then s.cur.cpu else c.cpu.value)
            && s'.cpuUsed == if c.cpu.Some? && Usable(s.cur.cpu, c.cpu.value) then Usage(s.cur.cpu, c.cpu.value) else s.cpuUsed
  {
  }

  lemma SampleAdded(samples: seq<Cpu>, c: Cpu)
    requires |samples| > 0
    ensures Measured(samples + [c]) ==
            var last := samples[|samples| - 1];
            if Usable(last, c) then Usage(last, c) else Measured(samples)
  {
    assert (samples + [c])[..|samples|] == samples;
  }

  /**
   Over any run of cycles, whichever collectors fail, the ratio is the one between consecutive cpu samples
   although the record is shifted in between.
   */
  lemma {:induction false} RunsMeasureConsecutiveSamples(cs: seq<Cycle>)
    ensures var s, samples := Collect(BOOTED, cs), Samples(cs);
            s.cur.cpu == samples[|samples| - 1] && s.cpuUsed == Measured(samples)
  {
    hide CycleStep, Usage, Usable;
    if cs != [] {
      var before, c := cs[..|cs| - 1], cs[|cs| - 1];
      RunsMeasureConsecutiveSamples(before);
      CycleMeasures(Collect(BOOTED, before), c);
      if c.cpu.Some? {
        SampleAdded(Samples(before), c.cpu.value);
        assert Samples(cs) == Samples(before) + [c.cpu.value];
      } else {
        assert Samples(cs) == Samples(before);
      }
    }
  }

  /**
   The collectors that run later find no previous counters of their own, for the cpu collector has replaced the
   whole record: their rates are taken from zero, and the cpu counters can no longer be told apart.
   */
  lemma LaterCollectorsSeeNoPrevious(s: Stat, sample: Cpu, i: Interrupts, n: Net)
    ensures var s1 := InterruptStep(CpuStep(s, sample), i);
            var s2 := NetStep(s1, n);
            && s1.last.interrupts == 0 && s1.last.softInterrupts == 0
            && s2.last.netInBits == 0 && s2.last.netOutBits == 0
            && s2.last.netInPackets == 0 && s2.last.netOutPackets == 0
            && s1.last.cpu == s1.cur.cpu && s2.last.cpu == s2.cur.cpu
  {
  }

  /** The ratio is a number exactly when time has passed, and then in [0, 1] exactly when the idle time did not go down. */
  lemma UsageInRange(a: Cpu, b: Cpu)
    requires Usable(a, b)
    ensures Usage(a, b).Finite? <==> Total(a) < Total(b)
    ensures Usage(a, b).Finite? ==>
              (0.0 <= Usage(a, b).value <= 1.0 <==> a.idle + a.iowait <= b.idle + b.iowait)
  {
    var used, total := Used(b) - Used(a), Total(b) - Total(a);
    if total > 0 {
      assert (used as real / total as real) * total as real == used as real;
      DivideAtMostOne(used, total);
    }
  }

  lemma DivideAtMostOne(a: int, b: int)
    requires a >= 0 && b > 0
    ensures 0.0 <= a as real / b as real
    ensures a as real / b as real <= 1.0 <==> a <= b
  {
    var q, d := a as real / b as real, b as real;
    assert q * d == a as real;
    if q <= 1.0 {
      assert q * d <= 1.0 * d;
    } else {
      assert q * d > 1.0 * d;
    }
  }

  /**
   What the ratio is, in the nine counters alone: used time over all time, where idle and waiting time are not used; it
   is recorded exactly when neither went down, and is no number when no time has passed.
   */
  lemma UsageIsUsedShare(a: Cpu, b: Cpu)
    ensures Usable(a, b) <==>
              && (b.user - a.user) + (b.nice - a.nice) + (b.system - a.system) + (b.idle - a.idle) + (b.iowait - a.iowait)
                 + (b.irq - a.irq) + (b.softirq - a.softirq) + (b.steal - a.steal) + (b.guest - a.guest) >= 0
              && (b.user - a.user) + (b.nice - a.nice) + (b.system - a.system)
                 + (b.irq - a.irq) + (b.softirq - a.softirq) + (b.steal - a.steal) + (b.guest - a.guest) >= 0
    ensures Usable(a, b) ==> IsUsedShare(a, b, Usage(a, b))
  {
  }

  ghost predicate IsUsedShare(a: Cpu, b: Cpu, d: Double) {
    var all := (b.user - a.user) + (b.nice - a.nice) + (b.system - a.system) + (b.idle - a.idle) + (b.iowait - a.iowait)
               + (b.irq - a.irq) + (b.softirq - a.softirq) + (b.steal - a.steal) + (b.guest - a.guest);
    var used := (b.user - a.user) + (b.nice - a.nice) + (b.system - a.system)
                + (b.irq - a.irq) + (b.softirq - a.softirq) + (b.steal - a.steal) + (b.guest - a.guest);
    match d
    case Finite(value) => all > 0 && value * all as real == used as real
    case NotANumber => all == 0 && used == 0
    case Infinite => all == 0 && used > 0
  }

  /** The second of two consecutive samples is the last that is usable after the one before it. */
  predicate LastUsable(samples: seq<Cpu>, k: int) {
    0 < k < |samples| && Usable(samples[k - 1], samples[k])
    && forall j | k < j < |samples| :: !Usable(samples[j - 1], samples[j])
  }

  predicate MeasuredAt(samples: seq<Cpu>, k: int, d: Double) {
    LastUsable(samples, k) && d == Usage(samples[k - 1], samples[k])
  }

  predicate NoneUsable(samples: seq<Cpu>) {
    forall k | 0 < k < |samples| :: !Usable(samples[k - 1], samples[k])
  }

  lemma {:induction false} MeasuredIsLast(samples: seq<Cpu>)
    ensures (exists k :: MeasuredAt(samples, k, Measured(samples))) || (Measured(samples) == Finite(0.0) && NoneUsable(samples))
  {
    hide Usable, Usage;
    var n := |samples|;
    if n >= 2 && Usable(samples[n - 2], samples[n - 1]) {
      assert MeasuredAt(samples, n - 1, Measured(samples));
    } else if n >= 2 {
      var before, d := samples[..n - 1], Measured(samples[..n - 1]);
      MeasuredIsLast(before);
      if k :| MeasuredAt(before, k, d) {
        MeasuredLonger(samples, k, d);
        assert Measured(samples) == d;
        assert MeasuredAt(samples, k, Measured(samples));
      } else {
        NoneLonger(samples);
      }
    }
  }

  lemma MeasuredLonger(samples: seq<Cpu>, k: int, d: Double)
    requires |samples| >= 2 && !Usable(samples[|samples| - 2], samples[|samples| - 1])
    requires MeasuredAt(samples[..|samples| - 1], k, d)
    ensures MeasuredAt(samples, k, d)
  {
    hide Usable, Usage;
    var before := samples[..|samples| - 1];
    forall j | k < j < |samples| ensures !Usable(samples[j - 1], samples[j]) {
      assert j < |samples| - 1 ==> before[j - 1] == samples[j - 1] && before[j] == samples[j];
    }
  }

  lemma NoneLonger(samples: seq<Cpu>)
    requires |samples| >= 2 && !Usable(samples[|samples| - 2], samples[|samples| - 1])
    requires NoneUsable(samples[..|samples| - 1])
    ensures NoneUsable(samples)
  {
    hide Usable;
    var before := samples[..|samples| - 1];
    forall k | 0 < k < |samples| ensures !Usable(samples[k - 1], samples[k]) {
      assert k < |samples| - 1 ==> before[k - 1] == samples[k - 1] && before[k] == samples[k];
    }
  }

  ghost predicate UsedShareAt(samples: seq<Cpu>, k: int, d: Double) {
    LastUsable(samples, k) && IsUsedShare(samples[k - 1], samples[k], d)
  }

  /** After any run the ratio is the used share between the last two consecutive samples usable one after the other, or still 0. */
  lemma RunsMeasureUsedShare(cs: seq<Cycle>)
    ensures var samples, d := Samples(cs), Collect(BOOTED, cs).cpuUsed;
            (exists k :: UsedShareAt(samples, k, d)) || (d == Finite(0.0) && NoneUsable(samples))
  {
    hide Usage, Usable, Measured, IsUsedShare;
    RunsMeasureConsecutiveSamples(cs);
    var samples := Samples(cs);
    MeasuredIsLast(samples);
    if k :| MeasuredAt(samples, k, Measured(samples)) {
      UsageIsUsedShare(samples[k - 1], samples[k]);
      assert UsedShareAt(samples, k, Collect(BOOTED, cs).cpuUsed);
    }
  }

  predicate NonDecreasing(a: Cpu, b: Cpu) {
    && a.user <= b.user && a.nice <= b.nice && a.system <= b.system && a.idle <= b.idle && a.iowait <= b.iowait
    && a.irq <= b.irq && a.softirq <= b.softirq && a.steal <= b.steal && a.guest <= b.guest
  }

  /** Counters that only grow, with time passing between any two samples. */
  predicate Grows(a: Cpu, b: Cpu) {
    NonDecreasing(a, b) && Total(a) < Total(b)
  }

  ghost predicate Growing(samples: seq<Cpu>) {
    forall i | 0 < i < |samples| :: Grows(samples[i - 1], samples[i])
  }

  predicate InRange(d: Double) {
    d.Finite? && 0.0 <= d.value <= 1.0
  }

  /** After any run the ratio is in range if the counters grew between its last two samples, whatever came before. */
  lemma LastRatioInRange(cs: seq<Cycle>)
    requires var samples := Samples(cs);
             |samples| >= 2 && Grows(samples[|samples| - 2], samples[|samples| - 1])
    ensures InRange(Collect(BOOTED, cs).cpuUsed)
  {
    RunsMeasureConsecutiveSamples(cs);
    var samples := Samples(cs);
    UsageInRange(samples[|samples| - 2], samples[|samples| - 1]);
  }

  /** For counters that only grow the ratio is in [0, 1] in every state of a run, whichever collectors fail. */
  lemma RatioInRange(cs: seq<Cycle>)
    requires Growing(Samples(cs))
    ensures InRange(Collect(BOOTED, cs).cpuUsed)
  {
    if |Samples(cs)| >= 2 {
      LastRatioInRange(cs);
    } else {
      RunsMeasureConsecutiveSamples(cs);
    }
  }

  // ---------------------------------------------------------------- the object

  class SysStat {
    var last: Resources
    var cur: Resources
    var cpuUsed: Double
    var collectTimes: nat

    ghost function State(): Stat
      reads this
    {
      Stat(last, cur, cpuUsed)
    }

    constructor ()
      ensures State() == BOOTED && collectTimes == 0
    {
      last, cur, cpuUsed, collectTimes := ZERO, ZERO, Finite(0.0), 0;
    }

    method GetGlobalCpuStat(sample: Option<Cpu>) returns (ok: bool)
      modifies this`last, this`cur, this`cpuUsed
      ensures State() == if sample.None? then old(State()) else CpuStep(old(State()), sample.value)
      ensures ok <==> sample.Some? && Usable(old(cur.cpu), sample.value)
    {
      if sample.None? {
        return false;
      }
      last := cur;
      cur := ZERO.(cpu := sample.value);
      var total := Total(cur.cpu) - Total(last.cpu);
      if total < 0 {
        return false;
      }
      var used := Used(cur.cpu) - Used(last.cpu);
      if used < 0 {
        return false;
      }
      cpuUsed := Divide(used, total);
      ok := true;
    }

    method GetGlobalIntrStat(reading: Option<Interrupts>) returns (ok: bool)
      modifies this`last, this`cur
      ensures State() == if reading.None? then old(State()) else InterruptStep(old(State()), reading.value)
      ensures ok <==> reading.Some?
      ensures ok ==> last == old(cur) && cur.interrupts == reading.value.hard && cur.softInterrupts == reading.value.soft
    {
      if reading.None? {
        return false;
      }
      last := cur;
      cur := cur.(interrupts := reading.value.hard);
      cur := cur.(softInterrupts := reading.value.soft);
      ok := true;
    }

    method GetGlobalNetStat(reading: Option<Net>) returns (ok: bool)
      modifies this`last, this`cur
      ensures State() == if reading.None? then old(State()) else NetStep(old(State()), reading.value)
      ensures ok <==> reading.Some?
      ensures ok ==> last == old(cur) && cur.netInBits == reading.value.inBits && cur.netOutBits == reading.value.outBits
                     && cur.netInPackets == reading.value.inPackets && cur.netOutPackets == reading.value.outPackets
    {
      if reading.None? {
        return false;
      }
      last := cur;
      cur := cur.(netInBits := reading.value.inBits, netOutBits := reading.value.outBits,
      netInPackets := reading.value.inPackets, netOutPackets := reading.value.outPackets);
      ok := true;
    }

    /** One cycle; it counts when every collector succeeds. */
    method CollectSysStat(c: Cycle)
      modifies this
      ensures State() == CycleStep(old(State()), c)
      ensures collectTimes == old(collectTimes) + if c.cpu.Some? && Usable(old(cur.cpu), c.cpu.value) && c.memory
                                                     && c.interrupts.Some? && c.io && c.net.Some? then 1 else 0
    {
      var ok := GetGlobalCpuStat(c.cpu);
      if !ok || !c.memory {
        return;
      }
      ok := GetGlobalIntrStat(c.interrupts);
      if !ok || !c.io {
        return;
      }
      ok := GetGlobalNetStat(c.net);
      if !ok {
        return;
      }
      collectTimes := collectTimes + 1;
    }
  }
}
