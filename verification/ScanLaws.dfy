/** The laws of timers and one-shots, scan by scan. */
module ScanLaws {
  import opened Bytes
  import opened Instructions
  import opened ControlFlow
  import opened Admission
  import opened Semantics
  import opened Soundness
  import opened Machine
  import opened Safety
  import opened Runs
  import opened TimerLaw
  import opened OneShotLaw
  import opened RecordNumbers

  // ----- one execution per scan -----

  /** The executions of one instruction. */
  function Own(log: seq<Stamped>, own: Instr): seq<Stamped> {
    if log == [] then []
    else
      var e := log[|log| - 1];
      Own(log[..|log| - 1], own) + if e.event.instr == own then [e] else []
  }

  /** The ticks of the scans of a run. */
  function Ticks(calls: seq<Call>): seq<uint64> {
    if calls == [] then []
    else (if calls[0].CallScan? then [calls[0].hal.now] else []) + Ticks(calls[1..])
  }

  /** The instruction stands exactly once in the first n records. */
  predicate StandsOnce(p: Program, own: Instr, n: nat) {
    n <= |p.code| && multiset(Executed(p.code[..n]))[own] == 1
  }

  lemma {:induction false} OwnAppend(a: seq<Stamped>, b: seq<Stamped>, own: Instr)
    ensures Own(a + b, own) == Own(a, own) + Own(b, own)
    decreases |b|
  {
    if b == [] {
      assert a + b == a && Own(a, own) + [] == Own(a, own);
    } else {
      var n := |b| - 1;
      assert (a + b)[..|a + b| - 1] == a + b[..n];
      OwnAppend(a, b[..n], own);
    }
  }

  /** As often as the instruction stands in the log of a scan, with the tick of the scan. */
  lemma {:induction false} OwnOfScan(events: seq<Event>, tick: uint64, own: Instr)
    ensures |Own(Stamp(events, tick), own)| == multiset(Instrs(events))[own]
    ensures forall e | e in Own(Stamp(events, tick), own) :: e.tick == tick
    decreases |events|
  {
    if events != [] {
      var n := |events| - 1;
      OwnOfScan(events[..n], tick, own);
      assert Stamp(events, tick)[..n] == Stamp(events[..n], tick);
      assert Instrs(events) == Instrs(events[..n]) + [events[n].instr];
    }
  }

  lemma {:induction false} ScanRunsOnce(p: Program, reals: RealOps, st: State, hal: Hal, own: Instr)
    requires ProgramOk(p) && Invariant(p, st) && Scan(p, reals, st, hal).status == OK && StandsOnce(p, own, st.visible)
    ensures var ran := Own(CallLog(p, reals, st, CallScan(hal)), own); |ran| == 1 && ran[0].tick == hal.now
    ensures Scan(p, reals, st, hal).state.visible == st.visible
  {
    ScanExecutesEachOnce(p, reals, st, hal);
    OwnOfScan(Join(Scan(p, reals, st, hal).log), hal.now, own);
  }

  lemma {:induction false} HostKeepsVisible(p: Program, reals: RealOps, st: State, call: Call)
    requires CoilsHaveOperands(p.code) && Shape(p, st) && !call.CallScan? && !call.CallSetMode?
    ensures Apply(p, reals, st, call).0.visible == st.visible
  {
  }

  /** In a run of OK scans a visible instruction runs exactly once in every scan: its k-th execution
   *  is in the k-th scan. */
  lemma {:induction false} RunsOncePerScan(
      p: Program, reals: RealOps, st: State, calls: seq<Call>, ids: set<nat>, own: Instr)
    requires ProgramOk(p) && CoilsHaveOperands(p.code) && Invariant(p, st)
    requires Steady(p, reals, st, calls, ids) && StandsOnce(p, own, st.visible)
    ensures var ran := Own(RunLog(p, reals, st, calls), own);
            |ran| == |Ticks(calls)| && forall k | 0 <= k < |ran| :: ran[k].tick == Ticks(calls)[k]
    decreases |calls|
  {
    hide ProgramOk, StandsOnce, Scan, Consistent, AtBoundary;
    if calls != [] {
      var next, events := Apply(p, reals, st, calls[0]).0, CallLog(p, reals, st, calls[0]);
      ApplyIsSound(p, reals, st, calls[0]);
      if calls[0].CallScan? {
        ScanRunsOnce(p, reals, st, calls[0].hal, own);
      } else {
        HostKeepsVisible(p, reals, st, calls[0]);
      }
      RunsOncePerScan(p, reals, next, calls[1..], ids, own);
      OwnAppend(events, RunLog(p, reals, next, calls[1..]), own);
    }
  }

  // ----- timers -----

  /** A stateful instruction of accepted code stands in it once: its slot is its own. */
  lemma {:induction false} StatefulStandsOnce(code: seq<Instr>, last: int, own: Instr)
    requires Increasing(Slots(code), last) && own in code && IsStateful(own.op)
    ensures multiset(Executed(code))[own] == 1
    decreases |code|
  {
    var i, rest := code[0], code[1..];
    assert code == [i] + rest;
    ExecutedAppend([i], rest);
    assert [i][1..] == [] && Executed([]) == [];
    assert Slots(code)[if IsStateful(i.op) then 1 else 0..] == Slots(rest);
    if own in rest {
      SlotsMember(rest, own);
      if IsStateful(i.op) {
        IncreasingAbove(Slots(rest), i.slot, own.slot);
      }
      StatefulStandsOnce(rest, if IsStateful(i.op) then i.slot else last, own);
    } else {
      InExecutedOnly(rest, own);
    }
  }

  lemma {:induction false} TimesAreOwn(log: seq<Stamped>, own: Instr)
    ensures |Times(log, own)| == |Own(log, own)|
    ensures forall k | 0 <= k < |Own(log, own)| :: Times(log, own)[k] == Own(log, own)[k].tick
    decreases |log|
  {
    if log != [] {
      TimesAreOwn(log[..|log| - 1], own);
    }
  }

  /** The timer law over scans. A timer at rest, visible and powered in each of N + 1 OK scans whose
   *  ticks t0, ..., tN never go back, holds at most the elapsed milliseconds and falls short of
   *  them by less than one per scan, unless it has reached its limit 2^31 - 1; EN is set, DN iff ACC >= PRE. */
  lemma {:induction false} HeldTimerOverScans(
      p: Program, reals: RealOps, st: State, calls: seq<Call>, id: nat, own: Instr, pre: int32)
    requires ProgramOk(p) && CoilsHaveOperands(p.code) && Invariant(p, st)
    requires Steady(p, reals, st, calls, {}) && OnlyTimer(p, id, own) && own in p.code[..st.visible]
    requires TimedFor(st.store, id, own.slot, pre, [])
    requires Held(RunLog(p, reals, st, calls), own)
    requires Ticks(calls) != [] && forall k | 1 <= k < |Ticks(calls)| :: Ticks(calls)[k - 1] <= Ticks(calls)[k]
    ensures var t, end := Ticks(calls), Calls(p, reals, st, calls).store;
            var n, elapsed := |t| - 1, (t[|t| - 1] as int) - t[0];
            && id < |end.tags| && end.tags[id].data.TimerD?
            && var d := end.tags[id].data;
               && 1000 * d.acc <= elapsed && (elapsed <= 1000 * d.acc + 999 * n || d.acc == INT32_MAX)
               && d.en && (d.dn <==> d.acc >= d.pre) && (d.tt <==> !d.dn) && d.pre == pre
  {
    var log, t := RunLog(p, reals, st, calls), Ticks(calls);
    hide ProgramOk, Consistent, AtBoundary, Steady, RunLog, CoilsHaveOperands, OnlyTimer, Held;
    OwnStandsOnce(p, st.visible, id, own);
    RunsOncePerScan(p, reals, st, calls, {}, own);
    TimesAreOwn(log, own);
    assert Times(log, own) == t;
    HeldTimerAccumulates(p, reals, st, calls, id, own, pre);
    MillisecondsBound(t);
  }

  lemma {:induction false} OwnStandsOnce(p: Program, visible: nat, id: nat, own: Instr)
    requires ProgramOk(p) && OnlyTimer(p, id, own) && visible <= |p.code| && own in p.code[..visible]
    ensures StandsOnce(p, own, visible)
  {
    var before, after := p.code[..visible], p.code[visible..];
    assert p.code == before + after;
    ExecutedAppend(before, after);
    StatefulStandsOnce(p.code, -1, own);
    InExecutedOnly(before, own);
  }

  // ----- one-shots -----

  lemma {:induction false} LastIsLast(log: seq<Stamped>, own: Instr, before: bool)
    ensures var ran := Own(log, own); LastInput(log, own, before) == if ran == [] then before
            else ran[|ran| - 1].event.inp
    decreases |log|
  {
    if log != [] {
      LastIsLast(log[..|log| - 1], own, before);
    }
  }

  /** Execution k passes power exactly when its input is true and that of execution k - 1 was not;
   *  before stands for the input before the first. */
  predicate PulsesEach(ran: seq<Stamped>, before: bool) {
    forall k | 0 <= k < |ran| :: ran[k].event.out == (ran[k].event.inp && !InputBefore(ran, k, before))
  }

  function InputBefore(ran: seq<Stamped>, k: nat, before: bool): bool
    requires k <= |ran|
  {
    if k == 0 then before else ran[k - 1].event.inp
  }

  lemma {:induction false} OneMorePulse(ran: seq<Stamped>, e: Stamped, before: bool)
    requires PulsesEach(ran, before) && e.event.out == (e.event.inp && !InputBefore(ran, |ran|, before))
    ensures PulsesEach(ran + [e], before)
  {
    assert forall k | 0 <= k <= |ran| :: InputBefore(ran + [e], k, before) == InputBefore(ran, k, before);
  }

  lemma {:induction false} PulsesOneByOne(log: seq<Stamped>, own: Instr, before: bool)
    requires PulsesOnRise(log, own, before)
    ensures PulsesEach(Own(log, own), before)
    decreases |log|
  {
    if log != [] {
      var n := |log| - 1;
      assert forall k | 0 <= k < n :: log[..n][..k] == log[..k] && log[..n][k] == log[k];
      PulsesOneByOne(log[..n], own, before);
      LastIsLast(log[..n], own, before);
      var ran, e := Own(log[..n], own), log[n];
      if e.event.instr == own {
        assert Own(log, own) == ran + [e];
        OneMorePulse(ran, e, before);
      } else {
        assert Own(log, own) == ran;
      }
    }
  }

  /** The one-shot law over scans: in the k-th of N OK scans a visible one-shot that owns its storage
   *  passes power iff its input is true at scan k and was false at scan k - 1; the stored value
   *  stands for the scan before the first. */
  lemma {:induction false} OneShotPulsesEachScan(
      p: Program, reals: RealOps, st: State, calls: seq<Call>, id: nat, own: Instr)
    requires ProgramOk(p) && CoilsHaveOperands(p.code) && Invariant(p, st) && OwnsStorage(p, id, own)
    requires Steady(p, reals, st, calls, {id}) && StandsOnce(p, own, st.visible)
    requires id < |st.store.tags| && st.store.forces[id] == None && st.store.tags[id].data.BoolD?
    ensures var ran := Own(RunLog(p, reals, st, calls), own);
            && |ran| == |Ticks(calls)| && (forall k | 0 <= k < |ran| :: ran[k].tick == Ticks(calls)[k])
            && PulsesEach(ran, st.store.tags[id].data.b)
  {
    hide ProgramOk, Consistent, AtBoundary, Steady, RunLog, CoilsHaveOperands, OwnsStorage, StandsOnce, PulsesOnRise,
         PulsesEach;
    RunsOncePerScan(p, reals, st, calls, {id}, own);
    OneShotPulsesOnRise(p, reals, st, calls, id, own);
    PulsesOneByOne(RunLog(p, reals, st, calls), own, st.store.tags[id].data.b);
  }
}
