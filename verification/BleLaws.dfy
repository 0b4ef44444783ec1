/**
 * What the single events of the BLE sequencer do: which request a tick makes, which operation a
 * completion ends, and how these add up over a run.
 */
module BleLaws {
  import opened Bytes
  import opened BleSequence

  // ----- One tick -----

  /**
   * A tick while the sequence runs asks for one read of the timer's instruction: an accepted read is
   * in progress and holds a reference, or has completed already; a refused one changes nothing.  The
   * timer goes on in any case.
   */
  lemma TickReads(s: State, k: nat, reply: Reply)
    requires k < |s.io.timers| && s.status.RUNNING? && s.refs > 0
    ensures var (r, src) := (Tick(s, k, reply), s.io.timers[k]);
            match reply
            case Refused => r == s
            case Pending =>
              && r.io.reading == s.io.reading + [src] && r.refs == s.refs + 1
              && r.requests == s.requests + [ReadOf(src)]
              && r == s.(io := r.io, refs := r.refs, requests := r.requests)
              && r.io.timers == s.io.timers && r.io.writing == s.io.writing
            case AtOnce => r == s.(requests := s.requests + [ReadOf(src)])
  {
    if !reply.Refused? { ScheduleReadEffect(s, s.io.timers[k], reply); }
    hide ScheduleRead, BuffersOf;
  }

  /** In any other state the tick asks for nothing and ends the timer. */
  lemma TickEnds(s: State, k: nat, reply: Reply)
    requires Inv(s) && k < |s.io.timers| && !s.status.RUNNING?
    ensures var r := Tick(s, k, reply);
            && r.requests == s.requests && r.refs == s.refs - 1
            && multiset(s.io.timers) == multiset(r.io.timers) + multiset{s.io.timers[k]}
            && r.io.reading == s.io.reading && r.io.writing == s.io.writing
  {
    WithoutOne(s.io.timers, k);
    hide BuffersOf, Mid;
  }

  lemma WithoutOne<T>(xs: seq<T>, k: nat)
    requires k < |xs|
    ensures multiset(xs) == multiset(Without(xs, k)) + multiset{xs[k]}
  {
    assert xs == xs[..k] + [xs[k]] + xs[k + 1..];
  }

  /** A completed read is the one that ends, and no other operation. */
  lemma ReadEnds(s: State, k: nat)
    requires k < |s.io.reading|
    ensures var r := ReadComplete(s, k);
            && multiset(s.io.reading) == multiset(r.io.reading) + multiset{s.io.reading[k]}
            && r.io.writing == s.io.writing && r.io.timers == s.io.timers && r.refs == s.refs - 1
            && r.requests == s.requests && r.submitted == s.submitted
  {
    WithoutOne(s.io.reading, k);
    hide BuffersOf;
  }

  /** A completed write is the one that ends, and no other operation. */
  lemma WriteEnds(s: State, k: nat)
    requires k < |s.io.writing| && (s.io.writing[k].Entry? ==> s.io.writing[k].i < |s.instrs|)
    ensures var r := WriteComplete(s, k);
            && multiset(s.io.writing) == multiset(r.io.writing) + multiset{s.io.writing[k]}
            && r.io.reading == s.io.reading && r.io.timers == s.io.timers && r.refs == s.refs - 1
            && r.requests == s.requests && r.submitted == s.submitted
  {
    WithoutOne(s.io.writing, k);
    hide BuffersOf, BufferOf;
  }

  // ----- One instruction added -----

  /** The instruction names a characteristic and has the interval or the buffer that its kind needs. */
  predicate Complete(instr: Instruction) {
    && instr.uuid != None && instr.uuid != Some("")
    && (instr.kind == READ_PERIODIC ==> instr.interval != 0)
    && (instr.kind in {WRITE_ONCE, WRITE_AT_INIT, WRITE_AT_EXIT} ==> instr.buffer != None)
  }

  /**
   * An instruction is taken on exactly if it is complete, the sequence runs and the request is
   * accepted: it reads or writes once, starts a timer, or waits in the vector for the exit.
   */
  lemma AddIs(s: State, instr: Instruction, reply: Reply)
    requires s.refs > 0
    ensures var (r, src) := (Add(s, instr, reply), Own(instr));
            if !Complete(instr) || s.status != RUNNING || reply == Refused then r == s
            else
              match instr.kind
              case READ_ONCE =>
                && r.requests == s.requests + [ReadOf(src)] && r.io == s.io.(reading := r.io.reading)
                && r.io.reading == if reply == AtOnce then s.io.reading else s.io.reading + [src]
              case READ_PERIODIC => r == s.(refs := s.refs + 1, io := s.io.(timers := s.io.timers + [src]))
              case WRITE_ONCE | WRITE_AT_INIT =>
                && r.requests == s.requests + [WriteOf(src)] && r.io == s.io.(writing := r.io.writing)
                && r.io.writing == if reply == AtOnce then s.io.writing else s.io.writing + [src]
              case WRITE_AT_EXIT => r.requests == s.requests && r.io == s.io && r.instrs == s.instrs + [instr]
  {
    assert Complete(instr) <==> Acceptable(instr);
    if CanAdd(s, instr) && reply != Refused {
      AddEffect(s, instr, reply);
      assert s.io.reading + [] == s.io.reading && s.io.writing + [] == s.io.writing && s.io.timers + [] == s.io.timers;
      assert instr.kind == READ_PERIODIC ==> BufferOf(instr) == multiset{};
    }
    hide BuffersOf, BufferOf, Without;
  }

  // ----- The reads of a timer over a run -----

  function ReadsOf(requests: seq<Request>, src: Source): nat {
    if requests == [] then 0
    else ReadsOf(requests[..|requests| - 1], src) + if requests[|requests| - 1] == ReadOf(src) then 1 else 0
  }

  lemma {:induction false} ReadsAppend(a: seq<Request>, b: seq<Request>, src: Source)
    ensures ReadsOf(a + b, src) == ReadsOf(a, src) + ReadsOf(b, src)
  {
    if b == [] {
      assert a + b == a;
    } else {
      assert (a + b)[..|a + b| - 1] == a + b[..|b| - 1];
      ReadsAppend(a, b[..|b| - 1], src);
    }
  }

  lemma ReadsOne(a: seq<Request>, q: Request, src: Source)
    ensures ReadsOf(a + [q], src) == ReadsOf(a, src) + if q == ReadOf(src) then 1 else 0
  {
    assert (a + [q])[..|a|] == a;
  }

  /** The source is a periodic instruction of the vector, as long as there is one, or a copy of one. */
  predicate Periodic(instrs: seq<Instruction>, src: Source) {
    match src
    case Entry(i) => instrs != [] ==> i < |instrs| && instrs[i].kind == READ_PERIODIC
    case Own(instr) => instr.kind == READ_PERIODIC
  }

  /** A tick of a timer of the source that came while the sequence ran and was accepted. */
  predicate AcceptedTick(s: State, op: Op, src: Source)
    requires Allowed(s, op)
  {
    op.OpTick? && s.status == RUNNING && s.io.timers[op.k] == src && op.reply != Refused
  }

  /** The number of such ticks in a run. */
  function TicksOf(s: State, ops: seq<Op>, src: Source): nat
    requires CanApplyAll(s, ops)
    decreases |ops|
  {
    if ops == [] then 0
    else
      (if AcceptedTick(s, ops[0], src) then 1 else 0) + TicksOf(Apply(s, ops[0]), ops[1..], src)
  }

  lemma RequestIsNotPeriodic(kind: Kind, k: nat, instrs: seq<Instruction>, src: Source, a: seq<Request>)
    requires k < |instrs| && instrs[k].kind == kind && Periodic(instrs, src)
    ensures ReadsOf(a + RequestOf(kind, Entry(k)), src) == ReadsOf(a, src)
  {
    if RequestOf(kind, Entry(k)) == [] {
      assert a + [] == a;
    } else {
      ReadsOne(a, RequestOf(kind, Entry(k))[0], src);
    }
  }

  lemma SubmitReads(s: State, rs: Replies, exit: bool, k: nat, src: Source)
    requires k < |s.instrs| && s.refs > 0 && Periodic(s.instrs, src)
    ensures ReadsOf(SubmitIf(s, rs, exit, k).requests, src) == ReadsOf(s.requests, src)
  {
    SubmitEffect(s, k, ReplyTo(rs, k));
    RequestIsNotPeriodic(s.instrs[k].kind, k, s.instrs, src, s.requests);
    assert s.requests + [] == s.requests;
    hide Submit, RequestOf, Expected, BufferOf, ReadsOf, Periodic;
  }

  lemma SameKindsPeriodic(a: seq<Instruction>, b: seq<Instruction>, src: Source)
    requires SameKinds(a, b)
    ensures Periodic(a, src) <==> Periodic(b, src)
  {
  }

  lemma {:induction false} SubmittedReads(s: State, rs: Replies, exit: bool, k: nat, src: Source)
    requires k <= |s.instrs| && s.refs > 0 && Periodic(s.instrs, src)
    ensures ReadsOf(Submitted(s, rs, exit, k).requests, src) == ReadsOf(s.requests, src)
  {
    hide SubmitIf, Periodic, ReadsOf;
    if k > 0 {
      SubmittedReads(s, rs, exit, k - 1, src);
      assert |Submitted(s, rs, exit, k - 1).instrs| == |s.instrs|;
      hide SameKinds;
      SameKindsPeriodic(Submitted(s, rs, exit, k - 1).instrs, s.instrs, src);
      SubmitReads(Submitted(s, rs, exit, k - 1), rs, exit, k - 1, src);
    }
  }

  lemma RunReads(s: State, rs: Replies, stale: bool, src: Source)
    requires s.refs > 0 && Periodic(s.instrs, src)
    ensures var r := Run(s, rs, stale);
            ReadsOf(r.requests, src) == ReadsOf(s.requests, src) && Periodic(r.instrs, src)
  {
    if s.status.IDLE? {
      var t := s.(status := RUNNING);
      SubmittedReads(t, rs, false, FirstFailure(s.instrs, rs.refused, 0), src);
      SameKindsPeriodic(Submitted(t, rs, false, FirstFailure(s.instrs, rs.refused, 0)).instrs, s.instrs, src);
    }
    hide Submitted, FirstFailure, Periodic, ReadsOf, SameKinds;
  }

  lemma AddReads(s: State, instr: Instruction, reply: Reply, src: Source)
    requires s.refs > 0 && s.instrs != [] && Periodic(s.instrs, src)
    ensures var r := Add(s, instr, reply);
            ReadsOf(r.requests, src) == ReadsOf(s.requests, src) && Periodic(r.instrs, src)
  {
    if CanAdd(s, instr) && !reply.Refused? {
      AddEffect(s, instr, reply);
      assert s.requests + [] == s.requests;
      if instr.kind.READ_ONCE? {
        ReadsOne(s.requests, ReadOf(Own(instr)), src);
      } else if !instr.kind.READ_PERIODIC? && !instr.kind.WRITE_AT_EXIT? {
        ReadsOne(s.requests, WriteOf(Own(instr)), src);
      }
      hide Add, Expected, BufferOf, ReadsOf, Acceptable;
    }
  }

  lemma DestroyReads(s: State, notify: bool, rs: Replies, src: Source)
    requires s.refs > 0 && Periodic(s.instrs, src)
    ensures var r := Destroy(s, notify, rs);
            ReadsOf(r.requests, src) == ReadsOf(s.requests, src) && Periodic(r.instrs, src)
  {
    var t := s.(notify := notify, status := SHUTTING_DOWN);
    SubmittedReads(t, rs, true, |s.instrs|, src);
    SameKindsPeriodic(Submitted(t, rs, true, |s.instrs|).instrs, s.instrs, src);
    hide Submitted, ReadsOf, SameKinds, BuffersOf;
  }

  lemma TickCounts(s: State, k: nat, reply: Reply, src: Source)
    requires Inv(s) && k < |s.io.timers| && Periodic(s.instrs, src)
    ensures var r := Tick(s, k, reply);
            && ReadsOf(r.requests, src) == ReadsOf(s.requests, src)
                 + (if s.status == RUNNING && s.io.timers[k] == src && reply != Refused then 1 else 0)
            && Periodic(r.instrs, src)
  {
    if s.status.RUNNING? {
      assert s.refs > 0 by { hide WritesOk, Conserved, SubmittedOk; }
      TickReads(s, k, reply);
      ReadsOne(s.requests, ReadOf(s.io.timers[k]), src);
    } else {
      TickEnds(s, k, reply);
      assert Tick(s, k, reply).instrs == s.instrs || Tick(s, k, reply).instrs == [] by { hide BuffersOf, Mid; }
    }
    hide Mid, Tick, ReadsOf;
  }

  /** The vector has elements while the handle is there. */
  predicate HasElements(s: State) {
    s.refs > 0 ==> s.instrs != []
  }

  lemma ElementsStay(s: State, op: Op)
    requires Inv(s) && Allowed(s, op) && HasElements(s)
    ensures HasElements(Apply(s, op))
  {
    if op.OpAdd? && s.refs > 0 && CanAdd(s, op.instr) && !op.reply.Refused? { AddEffect(s, op.instr, op.reply); }
    if op.OpTick? && s.status.RUNNING? {
      assert s.refs > 0 by { hide WritesOk, Conserved, SubmittedOk; }
      TickReads(s, op.k, op.reply);
    }
    assert s.refs > 0 ==> s.instrs != [];
    assert s.refs == Expected(s.base, s.io) by { hide WritesOk, Conserved, SubmittedOk; }
    hide Mid, Submitted, Add, FirstFailure, BuffersOf, BufferOf, ScheduleRead;
  }

  lemma ReadsStep(s: State, op: Op, src: Source)
    requires Inv(s) && Allowed(s, op) && Periodic(s.instrs, src) && HasElements(s)
    ensures var r := Apply(s, op);
            && ReadsOf(r.requests, src) == ReadsOf(s.requests, src) + (if AcceptedTick(s, op, src) then 1 else 0)
            && Periodic(r.instrs, src)
  {
    hide Inv, Run, Add, Destroy, Tick, ReadsOf, ReadComplete, WriteComplete;
    match op
    case OpRun(rs, stale) => RunReads(s, rs, stale, src);
    case OpAdd(instr, reply) => AddReads(s, instr, reply, src);
    case OpDestroy(notify, rs) => DestroyReads(s, notify, rs, src);
    case OpRead(k) => ReadEnds(s, k); KeptByRead(s, k, src);
    case OpWrite(k) => WriteEnds(s, k); KeptByWrite(s, k, src);
    case OpTick(k, reply) => TickCounts(s, k, reply, src);
  }

  lemma KeptByRead(s: State, k: nat, src: Source)
    requires k < |s.io.reading| && Periodic(s.instrs, src)
    ensures Periodic(ReadComplete(s, k).instrs, src)
  {
    hide BuffersOf;
  }

  lemma KeptByWrite(s: State, k: nat, src: Source)
    requires k < |s.io.writing| && (s.io.writing[k].Entry? ==> s.io.writing[k].i < |s.instrs|)
    requires Periodic(s.instrs, src)
    ensures Periodic(WriteComplete(s, k).instrs, src)
  {
    hide BuffersOf, BufferOf;
  }

  lemma {:induction false} ReadsRun(s: State, ops: seq<Op>, src: Source)
    requires Inv(s) && CanApplyAll(s, ops) && Periodic(s.instrs, src) && HasElements(s)
    ensures ReadsOf(ApplyAll(s, ops).requests, src) == ReadsOf(s.requests, src) + TicksOf(s, ops, src)
    decreases |ops|
  {
    if ops != [] {
      ApplyKeeps(s, ops[0]);
      ElementsStay(s, ops[0]);
      ReadsStep(s, ops[0], src);
      hide Inv, Apply, Allowed, ReadsOf, Periodic, HasElements;
      ReadsRun(Apply(s, ops[0]), ops[1..], src);
    }
  }

  /** In every run a periodic instruction has been read as often as its timer ticked, was running and was accepted. */
  lemma TimersRead(instrs: seq<Instruction>, ops: seq<Op>, src: Source)
    requires Creatable(instrs) && CanApplyAll(Created(instrs), ops) && Periodic(instrs, src)
    ensures ReadsOf(ApplyAll(Created(instrs), ops).requests, src) == TicksOf(Created(instrs), ops, src)
  {
    CreatedOk(instrs);
    ReadsRun(Created(instrs), ops, src);
    hide Inv, ApplyAll, CanApplyAll, TicksOf, BuffersOf;
  }

  // ----- The end -----

  /** The writes for the exit among the first k elements have been made, and are in progress or done. */
  predicate ExitsMade(instrs: seq<Instruction>, r: State, rs: Replies, k: nat) {
    forall i :: 0 <= i < k && i < |instrs| && instrs[i].kind.WRITE_AT_EXIT? && i !in rs.refused ==>
      WriteOf(Entry(i)) in r.requests && (i in rs.atOnce || Entry(i) in r.io.writing)
  }

  lemma ExitStep(instrs: seq<Instruction>, r: State, rs: Replies, k: nat)
    requires ExitsMade(instrs, r, rs, k) && k < |instrs| && r.refs > 0 && SameKinds(r.instrs, instrs)
    ensures var t := SubmitIf(r, rs, true, k);
            && ExitsMade(instrs, t, rs, k + 1) && t.notify == r.notify && t.status == r.status
            && t.io.reading == r.io.reading && t.io.timers == r.io.timers && r.io.writing <= t.io.writing
  {
    SubmitEffect(r, k, ReplyTo(rs, k));
    assert r.io.reading + [] == r.io.reading && r.io.timers + [] == r.io.timers;
    hide Submit, Expected, BufferOf;
  }

  lemma {:induction false} ExitsSubmitted(s: State, rs: Replies, k: nat)
    requires k <= |s.instrs| && s.refs > 0
    ensures var t := Submitted(s, rs, true, k);
            && ExitsMade(s.instrs, t, rs, k) && t.notify == s.notify && t.status == s.status
            && t.io.reading == s.io.reading && t.io.timers == s.io.timers && s.io.writing <= t.io.writing
  {
    hide SubmitIf;
    if k > 0 {
      ExitsSubmitted(s, rs, k - 1);
      ExitStep(s.instrs, Submitted(s, rs, true, k - 1), rs, k - 1);
      hide ExitsMade;
    }
  }

  /**
   * Destroy asks for the write of each element for the exit and leaves what is in progress alone;
   * the callback it was given is the one the last reference will report to.
   */
  lemma DestroyIs(s: State, notify: bool, rs: Replies)
    requires s.refs > 0
    ensures var r := Destroy(s, notify, rs);
            && r.status == SHUTTING_DOWN && r.notify == notify && !r.base
            && ExitsMade(s.instrs, r, rs, |s.instrs|)
            && r.io.reading == s.io.reading && r.io.timers == s.io.timers && s.io.writing <= r.io.writing
  {
    var t := s.(notify := notify, status := SHUTTING_DOWN);
    ExitsSubmitted(t, rs, |s.instrs|);
    hide Submitted, BuffersOf;
  }

  /**
   * From Destroy on the callback is called once, when as many operations have ended as references
   * were left, and only if Destroy was given one.
   */
  lemma DestroyReports(s: State, notify: bool, rs: Replies, ops: seq<Op>)
    requires Inv(s) && s.base && s.refs > 0 && CanApplyAll(Destroy(s, notify, rs), ops)
    ensures var r := Destroy(s, notify, rs);
            ApplyAll(r, ops).destroyed == if notify && |ops| == r.refs then 1 else 0
  {
    DestroyKeeps(s, notify, rs);
    DestroyIs(s, notify, rs);
    CountsDown(Destroy(s, notify, rs), ops);
    hide Inv, Destroy, ApplyAll, CanApplyAll;
  }
}
