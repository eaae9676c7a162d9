/** What a start, a stop, a prescan and a postscan leave behind: coils off, one-shot storage on before a
 *  start, timers and counters at rest, stated on the tags. */
module LifecycleLaws {
  import opened Bytes
  import opened Instructions
  import opened ControlFlow
  import opened Admission
  import opened Semantics
  import opened Soundness
  import opened Machine
  import opened Safety

  /** The instruction has this code and works on the tag. */
  predicate On(i: Instr, op: byte, id: nat) {
    i.op == op && i.args != [] && i.args[0].raw == id
  }

  /** Some instruction of the code does. */
  predicate Names(code: seq<Instr>, op: byte, id: nat) {
    exists i | i in code :: On(i, op, id)
  }

  /** What the pass stores last in the tag: coils are switched off, and before a start the storage of
   *  one-shots is set. */
  function Last(code: seq<Instr>, id: nat, prescan: bool): Option<bool> {
    if code == [] then None
    else if Last(code[1..], id, prescan).Some? then Last(code[1..], id, prescan)
    else if On(code[0], OP_OTE, id) then Some(false)
    else if prescan && On(code[0], OP_ONS, id) then Some(true)
    else None
  }

  lemma {:induction false} LastIs(code: seq<Instr>, id: nat, prescan: bool)
    ensures Last(code, id, prescan) == Some(false) ==> Names(code, OP_OTE, id)
    ensures Last(code, id, prescan) == Some(true) ==> prescan && Names(code, OP_ONS, id)
    ensures Last(code, id, prescan) == None ==> !Names(code, OP_OTE, id) && !(prescan && Names(code, OP_ONS, id))
  {
    if code != [] {
      LastIs(code[1..], id, prescan);
      hide On;
      assert forall op :: Names(code, op, id) <==> On(code[0], op, id) || Names(code[1..], op, id) by {
        assert code == [code[0]] + code[1..];
      }
    }
  }

  lemma {:induction false} IdleCodeStores(
      decls: seq<Decl>, slots: seq<int>, s: Store, code: seq<Instr>, prescan: bool, id: nat)
    requires Consistent(decls, slots, s) && CoilsHaveOperands(code) && id < |s.tags|
    requires forall i | i in code :: InstrOk(decls, i)
    ensures var l := IdleCode(s, code, prescan);
            && l.ok && |l.store.tags| == |s.tags| && l.store.tags[id].storage == s.tags[id].storage
            && match Last(code, id, prescan)
               case None => l.store.tags[id] == s.tags[id]
               case Some(b) => l.store.tags[id].data == BoolD(b)
    decreases |code|
  {
    if code != [] {
      var i := code[0];
      assert i in code && InstrOk(decls, i);
      var v := IdleWrite(i, prescan);
      if v.Some? {
        WriteIsTyped(decls, s, i.args[0], v.value);
        IdleCodeStores(decls, slots, Write(s, i.args[0], v.value).value, code[1..], prescan, id);
      } else {
        IdleCodeStores(decls, slots, s, code[1..], prescan, id);
      }
    }
  }

  /** Timers start again with their preset, counters forget their inputs, everything else is kept. */
  predicate Rests(d: Data, d1: Data) {
    match d
    case TimerD(pre, _, _, _, _) => d1 == TimerD(pre, 0, false, false, false)
    case CounterD(pre, acc, _, _, dn, ov, un) => d1 == CounterD(pre, acc, false, false, dn, ov, un)
    case _ => d1 == d
  }

  /** The tag after a pass over the visible code. */
  predicate PassedOver(t: Tag, t1: Tag, code: seq<Instr>, id: nat, prescan: bool) {
    && t1.storage == t.storage
    && (Names(code, OP_OTE, id) && !(prescan && Names(code, OP_ONS, id)) ==> t1.data == BoolD(false))
    && (prescan && Names(code, OP_ONS, id) && !Names(code, OP_OTE, id) ==> t1.data == BoolD(true))
    && (Names(code, OP_OTE, id) && Names(code, OP_ONS, id) ==> t1.data.BoolD?)
    && (!Names(code, OP_OTE, id) && !(prescan && Names(code, OP_ONS, id)) ==> Rests(t.data, t1.data))
  }

  /** The store after a pass: every tag as PassedOver says, the edge memories set before a start and
   *  cleared otherwise, no time base, all forces in place. */
  predicate Swept(s: Store, s1: Store, code: seq<Instr>, prescan: bool) {
    && |s1.tags| == |s.tags| && s1.forces == s.forces && |s1.states| == |s.states|
    && (forall id | 0 <= id < |s.tags| :: PassedOver(s.tags[id], s1.tags[id], code, id, prescan))
    && (forall k | 0 <= k < |s.states| ::
          && s1.states[k].slot == s.states[k].slot && s1.states[k].edge == prescan && !s1.states[k].valid
          && s1.states[k].time == s.states[k].time)
  }

  lemma {:induction false} IdleCodeForces(s: Store, code: seq<Instr>, prescan: bool)
    requires CoilsHaveOperands(code)
    ensures IdleCode(s, code, prescan).store.forces == s.forces
    decreases |code|
  {
    if code != [] {
      IdleCodeForces(IdleStep(s, code[0], prescan).store, code[1..], prescan);
    }
  }

  /** A prescan or postscan of an accepted program sweeps its visible code. */
  lemma {:induction false} PassSweeps(p: Program, st: State, prescan: bool)
    requires ProgramOk(p) && Invariant(p, st) && CoilsHaveOperands(p.code)
    ensures var r := Pass(p, st, prescan);
            && r.1 == OK && r.0 == st.(store := r.0.store)
            && Swept(st.store, r.0.store, p.code[..st.visible], prescan)
  {
    var s, s0, code := st.store, Idle(st.store, prescan), p.code[..st.visible];
    var s1 := IdleCode(s0, code, prescan).store;
    IdleIsSound(p.decls, Slots(p.code), s, prescan);
    IdleCodeForces(s0, code, prescan);
    IdleCodeKeepsStates(s0, code, prescan);
    PassIsSound(p, st, prescan);
    hide IdleCode, Last, Names, InstrOk;
    forall id | 0 <= id < |s.tags|
      ensures |s1.tags| == |s.tags| && PassedOver(s.tags[id], s1.tags[id], code, id, prescan)
    {
      IdleCodeStores(p.decls, Slots(p.code), s0, code, prescan, id);
      LastIs(code, id, prescan);
    }
  }

  /** Entering RUN or TEST from PROGRAM sweeps the visible code as a prescan does, leaving them for
   *  PROGRAM as a postscan does: every coil is off after every start and stop. No other mode change
   *  touches the store. */
  lemma {:induction false} ModeChangeSweeps(p: Program, st: State, mode: Mode)
    requires ProgramOk(p) && Invariant(p, st) && CoilsHaveOperands(p.code)
    ensures var r, code := SetMode(p, st, mode), p.code[..st.visible];
            if (mode == RUN || mode == TEST) && st.mode == PROGRAM then
              r.1 == OK && Swept(st.store, r.0.store, code, true)
            else if mode == PROGRAM && (st.mode == RUN || st.mode == TEST) then
              r.1 == OK && Swept(st.store, r.0.store, code, false)
            else r.0.store == st.store
  {
    PassSweeps(p, st, true);
    PassSweeps(p, st, false);
    hide Swept, IdleCode, Idle;
  }
}
