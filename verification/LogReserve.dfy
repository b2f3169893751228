/** What begin_op's reservation guarantees by itself, whatever the size of the log region. */
module LogReserve {
  import opened LogProtocol

  /** What the outstanding operations may still add to the log. */
  ghost function Reserve(ops: map<nat, set<nat>>): nat
    decreases |ops|
  {
    if ops.Keys == {} then 0
    else
      var p :| p in ops.Keys;
      Unused(ops[p]) + Reserve(ops - {p})
  }

  function Unused(blocks: set<nat>): nat {
    if |blocks| <= MAXOPBLOCKS then MAXOPBLOCKS - |blocks| else 0
  }

  lemma {:induction false} ReserveSplit(ops: map<nat, set<nat>>, p: nat)
    requires p in ops
    ensures Reserve(ops) == Unused(ops[p]) + Reserve(ops - {p})
    decreases |ops|
  {
    var q :| q in ops.Keys && Reserve(ops) == Unused(ops[q]) + Reserve(ops - {q});
    if q != p {
      ReserveSplit(ops - {q}, p);
      ReserveSplit(ops - {p}, q);
      assert ops - {q} - {p} == ops - {p} - {q};
    }
  }

  lemma {:induction false} ReserveBound(ops: map<nat, set<nat>>)
    ensures Reserve(ops) <= MAXOPBLOCKS * |ops|
    decreases |ops|
  {
    if ops.Keys != {} {
      var p :| p in ops.Keys;
      ReserveSplit(ops, p);
      ReserveBound(ops - {p});
      assert (ops - {p}).Keys == ops.Keys - {p};
    }
  }

  /** The log and the unused allowance of every outstanding operation fit in LOGSIZE together. */
  ghost predicate Reserved(s: State) {
    && |s.lh| + Reserve(s.ops) <= LOGSIZE && (s.ops.Keys != {} ==> s.phase.Idle?)
    && (forall p, b | p in s.ops && b in s.ops[p] :: b in s.lh)
    && (forall p | p in s.ops :: |s.ops[p]| <= MAXOPBLOCKS)
  }

  /** A new block uses up one block of its operation's allowance. */
  lemma ReserveUsed(ops: map<nat, set<nat>>, p: nat, b: nat)
    requires p in ops && |ops[p] + {b}| <= MAXOPBLOCKS
    ensures Reserve(ops) == Reserve(ops[p := ops[p] + {b}]) + if b in ops[p] then 0 else 1
  {
    var ops' := ops[p := ops[p] + {b}];
    ReserveSplit(ops, p);
    ReserveSplit(ops', p);
    assert ops' - {p} == ops - {p};
    assert b in ops[p] ==> ops[p] + {b} == ops[p];
  }

  lemma ReservedLogWrite(g: Geometry, s: State, p: nat, b: nat)
    requires g.Valid() && Enabled(g, s, LogWrite(p, b)) && Reserved(s)
    ensures Reserved(Exec(g, s, LogWrite(p, b)))
  {
    ReserveUsed(s.ops, p, b);
  }

  /** Other steps leave the log and the operations alone, or find no operation outstanding. */
  lemma OthersKeepLog(g: Geometry, s: State, step: Step)
    requires g.Valid() && Enabled(g, s, step) && (s.ops.Keys != {} ==> s.phase.Idle?) && |s.lh| <= LOGSIZE
    requires !step.BeginOp? && !step.LogWrite? && !step.EndOp?
    ensures var s' := Exec(g, s, step);
            && ((s'.ops == s.ops && s'.lh == s.lh) || (s'.ops.Keys == {} && |s'.lh| <= LOGSIZE))
            && (s'.ops.Keys != {} ==> s'.phase.Idle?)
  {
  }

  lemma ReservedBegin(g: Geometry, s: State, p: nat)
    requires g.Valid() && Enabled(g, s, BeginOp(p)) && Reserved(s)
    ensures Reserved(Exec(g, s, BeginOp(p)))
  {
    var ops := s.ops[p := {}];
    ReserveBound(ops);
    assert ops.Keys == s.ops.Keys + {p};
  }

  lemma ReservedEnd(g: Geometry, s: State, p: nat)
    requires g.Valid() && Enabled(g, s, EndOp(p)) && Reserved(s)
    ensures Reserved(Exec(g, s, EndOp(p)))
  {
    ReserveSplit(s.ops, p);
    assert s.ops.Keys == {p} ==> (s.ops - {p}).Keys == {};
  }

  lemma ReservedOther(g: Geometry, s: State, step: Step)
    requires g.Valid() && Enabled(g, s, step) && Reserved(s)
    requires !step.BeginOp? && !step.LogWrite? && !step.EndOp?
    ensures Reserved(Exec(g, s, step))
  {
    OthersKeepLog(g, s, step);
  }

  lemma ReservedStep(g: Geometry, s: State, step: Step)
    requires g.Valid() && Enabled(g, s, step) && Reserved(s)
    ensures Reserved(Exec(g, s, step))
  {
    match step
    case BeginOp(p) => ReservedBegin(g, s, p);
    case LogWrite(p, b) => ReservedLogWrite(g, s, p, b);
    case EndOp(p) => ReservedEnd(g, s, p);
    case _ => ReservedOther(g, s, step);
  }

  lemma {:induction false} ReservedRun(g: Geometry, s: State, steps: seq<Step>)
    requires g.Valid() && Reserved(s) && Runs(g, s, steps)
    ensures Reserved(Final(g, s, steps))
    decreases |steps|
  {
    if steps != [] {
      ReservedStep(g, s, steps[0]);
      ReservedRun(g, Exec(g, s, steps[0]), steps[1..]);
    }
  }

  /** An operation with allowance left that logs a new block finds a free entry in the header. */
  lemma EntryLeft(s: State, p: nat, b: nat)
    requires Reserved(s) && p in s.ops && b !in s.lh && |s.ops[p] + {b}| <= MAXOPBLOCKS
    ensures |s.lh| < LOGSIZE
  {
    ReserveSplit(s.ops, p);
    assert b !in s.ops[p];
  }
}
