/**
 * The BLE instruction sequencer of modules/ble/src/bleio_seq_linux.c, statement by statement, over
 * the functions of BleSequence.
 */
module BleIoSeq {
  import opened Bytes
  import opened BleSequence

  class Handle {
    var status: Status
    var instructions: seq<Instruction>
    var refCount: nat
    /** on_destroy_complete is not NULL. */
    var notify: bool
    /** The contexts of the operations in progress. */
    var io: Io
    ghost var base: bool
    ghost var buffers: Ledger
    ghost var submitted: seq<nat>
    ghost var requests: seq<Request>
    ghost var destroyed: nat

    ghost function State(): State
      reads this
    {
      BleSequence.State(status, instructions, refCount, base, notify, io, buffers, submitted, requests, destroyed)
    }

    ghost predicate Valid()
      reads this
    {
      Inv(State())
    }

    constructor (instrs: seq<Instruction>)
      requires Creatable(instrs)
      ensures Valid() && State() == Created(instrs)
    {
      status, instructions, refCount, notify, io := IDLE, instrs, 1, false, Io([], [], []);
      base, buffers, submitted, requests, destroyed := true, Ledger(BuffersOf(instrs), multiset{}), [], [], 0;
      new;
      CreatedOk(instrs);
    }

    /** dec_ref_handle */
    method DecRefHandle()
      requires refCount > 0
      modifies this
      ensures State() == DecRef(old(State()))
    {
      hide BuffersOf;
      refCount := refCount - 1;
      if refCount == 0 {
        if notify {
          destroyed := destroyed + 1;
        }
        FreeBuffers();
        instructions := [];
      }
    }

    /** The loop that deletes the buffers still in the vector. */
    method FreeBuffers()
      modifies this`buffers
      ensures buffers == old(buffers).(freed := old(buffers).freed + BuffersOf(instructions))
    {
      FreedNone(buffers.freed, instructions);
      hide BufferOf, BuffersOf;
      var i := 0;
      while i < |instructions|
        invariant 0 <= i <= |instructions| && buffers.handed == old(buffers.handed)
        invariant buffers.freed == old(buffers.freed) + BuffersOf(instructions[..i])
      {
        FreedOneMore(old(buffers.freed), instructions, i);
        buffers := buffers.(freed := buffers.freed + BufferOf(instructions[i]));
        i := i + 1;
      }
      assert instructions[..|instructions|] == instructions;
    }

    /** schedule_read; the reference is taken before the request and given back if it is refused. */
    method ScheduleRead(src: Source, reply: Reply) returns (ok: bool)
      requires refCount > 0
      modifies this
      ensures ok == !reply.Refused? && State() == BleSequence.ScheduleRead(old(State()), src, reply)
    {
      refCount := refCount + 1;
      if reply == Refused {
        refCount := refCount - 1;
        return false;
      }
      io := io.(reading := io.reading + [src]);
      requests := requests + [ReadOf(src)];
      if reply == AtOnce {
        CompleteRead(|io.reading| - 1);
      }
      return true;
    }

    /** schedule_write */
    method ScheduleWrite(src: Source, reply: Reply) returns (ok: bool)
      requires refCount > 0 && (src.Entry? ==> src.i < |instructions|)
      modifies this
      ensures ok == !reply.Refused? && State() == BleSequence.ScheduleWrite(old(State()), src, reply)
    {
      refCount := refCount + 1;
      if reply == Refused {
        refCount := refCount - 1;
        return false;
      }
      io := io.(writing := io.writing + [src]);
      requests := requests + [WriteOf(src)];
      if reply == AtOnce {
        CompleteWrite(|io.writing| - 1);
      }
      return true;
    }

    /** schedule_periodic */
    method SchedulePeriodic(src: Source, started: bool) returns (ok: bool)
      requires refCount > 0
      modifies this
      ensures ok == started && State() == BleSequence.SchedulePeriodic(old(State()), src, started)
    {
      refCount := refCount + 1;
      if !started {
        refCount := refCount - 1;
        return false;
      }
      io := io.(timers := io.timers + [src]);
      return true;
    }

    /** schedule_instruction */
    method ScheduleInstruction(instr: Instruction, src: Source, reply: Reply) returns (ok: bool)
      requires refCount > 0 && (src.Entry? ==> src.i < |instructions|)
      modifies this
      ensures ok == !reply.Refused? && State() == Schedule(old(State()), instr, src, reply)
    {
      hide BleSequence.ScheduleRead, BleSequence.ScheduleWrite;
      match instr.kind {
        case READ_ONCE => ok := ScheduleRead(src, reply);
        case READ_PERIODIC => ok := SchedulePeriodic(src, reply != Refused);
        case WRITE_ONCE => ok := ScheduleWrite(src, reply);
        case WRITE_AT_INIT => ok := ScheduleWrite(src, reply);
        case WRITE_AT_EXIT =>
          ok := reply != Refused;
          if ok {
            instructions := instructions + [instr];
          }
      }
    }

    /** on_read_complete, also when it is called inside the request. */
    method CompleteRead(k: nat)
      requires refCount > 0 && k < |io.reading|
      modifies this
      ensures State() == ReadComplete(old(State()), k)
    {
      io := io.(reading := Without(io.reading, k));
      DecRefHandle();
    }

    /** on_write_complete: the buffer goes first, because the last reference frees the instructions. */
    method CompleteWrite(k: nat)
      requires refCount > 0 && k < |io.writing| && (io.writing[k].Entry? ==> io.writing[k].i < |instructions|)
      modifies this
      ensures State() == WriteComplete(old(State()), k)
    {
      hide BufferOf;
      match io.writing[k] {
        case Entry(i) =>
          buffers := buffers.(freed := buffers.freed + BufferOf(instructions[i]));
          instructions := instructions[i := instructions[i].(buffer := None)];
        case Own(instr) =>
          buffers := buffers.(freed := buffers.freed + BufferOf(instr));
      }
      io := io.(writing := Without(io.writing, k));
      DecRefHandle();
    }

    /** BLEIO_Seq_Run; stale is what the result variable holds before anything is assigned to it. */
    method Run(rs: Replies, stale: bool) returns (ok: bool)
      requires Valid() && base
      modifies this
      ensures Valid() && State() == BleSequence.Run(old(State()), rs, stale)
      ensures ok == RunOk(old(State()), rs, stale) && refCount > 0
    {
      MidFacts(State());
      RunKeeps(State(), rs, stale);
      hide Inv;
      if status != IDLE {
        ok := false;
      } else {
        status := RUNNING;
        ok := RunAll(rs, stale);
      }
      status := if ok then RUNNING else ERROR;
    }

    method RunAll(rs: Replies, stale: bool) returns (ok: bool)
      requires refCount > 0
      modifies this
      ensures State() == Submitted(old(State()), rs, false, FirstFailure(old(instructions), rs.refused, 0))
      ensures ok == if AllForExit(old(instructions)) then stale
                    else FirstFailure(old(instructions), rs.refused, 0) == |old(instructions)|
    {
      ok := stale;
      ghost var s := State();
      assert State() == Submitted(s, rs, false, 0);
      hide SubmitIf, Submitted, FirstFailure, AllForExit, SameKinds;
      AllForExitPrefix(s.instrs, 0);
      var i := 0;
      while i < |instructions|
        invariant 0 <= i <= |instructions| == |s.instrs| && refCount > 0
        invariant State() == Submitted(s, rs, false, i)
        invariant FirstFailure(s.instrs, rs.refused, 0) == FirstFailure(s.instrs, rs.refused, i)
        invariant ok == if AllForExit(s.instrs[..i]) then stale else true
      {
        var exit := instructions[i].kind == WRITE_AT_EXIT;
        var r := RunElement(s, i, rs);
        FirstFailureStep(s.instrs, rs.refused, i);
        AllForExitPrefix(s.instrs, i);
        if !exit {
          ok := r;
          if !ok {
            return;
          }
        }
        i := i + 1;
      }
      FirstFailureStep(s.instrs, rs.refused, i);
      assert s.instrs[..i] == s.instrs;
    }

    /** One round of the loop of BLEIO_Seq_Run. */
    method RunElement(ghost s: BleSequence.State, i: nat, rs: Replies) returns (ok: bool)
      requires s.refs > 0 && i < |s.instrs| && State() == Submitted(s, rs, false, i)
      modifies this
      ensures ok == (s.instrs[i].kind.WRITE_AT_EXIT? || i !in rs.refused)
      ensures State() == Submitted(s, rs, false, if ok then i + 1 else i)
    {
      SubmittedUnfold(s, rs, false, i);
      hide Submitted, Schedule;
      if instructions[i].kind == WRITE_AT_EXIT {
        return true;
      }
      if i !in rs.refused {
        submitted := submitted + [i];
      }
      ok := ScheduleInstruction(instructions[i], Entry(i), ReplyTo(rs, i));
      RefusedSchedule(old(State()), old(instructions)[i], Entry(i));
    }

    /** BLEIO_Seq_AddInstruction; copied is false when there is no memory for the copy. */
    method AddInstruction(instruction: Option<Instruction>, copied: bool, reply: Reply) returns (ok: bool)
      requires Valid() && base
      modifies this
      ensures Valid()
      ensures ok == (instruction.Some? && CanAdd(old(State()), instruction.value) && copied && !reply.Refused?)
      ensures State() == if instruction == None then old(State())
                         else Add(old(State()), instruction.value, if copied then reply else Refused)
    {
      if instruction == None {
        return false;
      }
      var valid := ValidateInstruction(instruction.value);
      if !valid || status != RUNNING || !copied {
        return false;
      }
      var instr := instruction.value;
      MidFacts(State());
      AddKeeps(State(), instr, reply);
      RefusedSchedule(State(), instr, Own(instr));
      hide Inv, BufferOf, Schedule, Acceptable;
      if reply != Refused {
        buffers := buffers.(handed := buffers.handed + BufferOf(instr));
      }
      ok := ScheduleInstruction(instr, Own(instr), reply);
    }

    /** BLEIO_Seq_Destroy */
    method Destroy(notifyCaller: bool, rs: Replies)
      requires Valid() && base
      modifies this
      ensures Valid() && State() == BleSequence.Destroy(old(State()), notifyCaller, rs)
    {
      MidFacts(State());
      DestroyKeeps(State(), notifyCaller, rs);
      hide Inv;
      notify := notifyCaller;
      status := SHUTTING_DOWN;
      SubmitExits(rs);
      base := false;
      DecRefHandle();
    }

    method SubmitExits(rs: Replies)
      requires refCount > 0
      modifies this
      ensures refCount > 0 && State() == Submitted(old(State()), rs, true, |old(instructions)|)
    {
      ghost var s := State();
      assert State() == Submitted(s, rs, true, 0);
      hide Submitted, SubmitIf;
      var i := 0;
      while i < |instructions|
        invariant 0 <= i <= |instructions| == |s.instrs| && refCount > 0
        invariant State() == Submitted(s, rs, true, i)
      {
        SubmitExit(s, i, rs);
        i := i + 1;
      }
    }

    /** One round of the loop of BLEIO_Seq_Destroy. */
    method SubmitExit(ghost s: BleSequence.State, i: nat, rs: Replies)
      requires s.refs > 0 && i < |s.instrs| && State() == Submitted(s, rs, true, i)
      modifies this
      ensures State() == Submitted(s, rs, true, i + 1)
    {
      SubmittedUnfold(s, rs, true, i);
      hide Submitted, Schedule, BleSequence.ScheduleWrite;
      if instructions[i].kind == WRITE_AT_EXIT {
        if i !in rs.refused {
          submitted := submitted + [i];
        }
        var _ := ScheduleWrite(Entry(i), ReplyTo(rs, i));
        RefusedWrite(old(State()), Entry(i));
      }
    }

    /** on_read_complete */
    method OnReadComplete(k: nat)
      requires Valid() && k < |io.reading|
      modifies this
      ensures Valid() && State() == ReadComplete(old(State()), k)
    {
      ReadKeeps(State(), k);
      assert refCount > 0 by { hide Mid; InProgress(State()); }
      hide Inv;
      CompleteRead(k);
    }

    /** on_write_complete */
    method OnWriteComplete(k: nat)
      requires Valid() && k < |io.writing|
      modifies this
      ensures old(io.writing)[k].Entry? ==> old(io.writing)[k].i < |old(instructions)|
      ensures Valid() && State() == WriteComplete(old(State()), k)
    {
      WriteKeeps(State(), k);
      assert refCount > 0 by { hide Mid; InProgress(State()); }
      hide Inv;
      CompleteWrite(k);
    }

    /** on_timer; the result says whether the timer goes on. */
    method OnTimer(k: nat, reply: Reply) returns (again: bool)
      requires Valid() && k < |io.timers|
      modifies this
      ensures Valid() && State() == Tick(old(State()), k, reply) && again == old(status).RUNNING?
    {
      TickKeeps(State(), k, reply);
      assert refCount > 0 by { hide Mid; InProgress(State()); }
      hide Inv, BleSequence.ScheduleRead;
      again := status == RUNNING;
      if again {
        var _ := ScheduleRead(io.timers[k], reply);
      } else {
        io := io.(timers := Without(io.timers, k));
        DecRefHandle();
      }
    }
  }

  /** While something is in progress the handle is there. */
  lemma InProgress(s: BleSequence.State)
    requires Inv(s) && s.io != Io([], [], [])
    ensures s.refs > 0
  {
    hide WritesOk, Conserved, SubmittedOk;
  }

  lemma RefusedSchedule(s: BleSequence.State, instr: Instruction, src: Source)
    requires src.Entry? ==> src.i < |s.instrs|
    ensures Schedule(s, instr, src, Refused) == s
  {
  }

  lemma RefusedWrite(s: BleSequence.State, src: Source)
    requires src.Entry? ==> src.i < |s.instrs|
    ensures BleSequence.ScheduleWrite(s, src, Refused) == s
  {
  }

  lemma SubmittedUnfold(s: BleSequence.State, rs: Replies, exit: bool, k: nat)
    requires k < |s.instrs| && s.refs > 0
    ensures var r := Submitted(s, rs, exit, k);
            && r.refs > 0 && |r.instrs| == |s.instrs| && r.instrs[k].kind == s.instrs[k].kind
            && Submitted(s, rs, exit, k + 1)
               == if s.instrs[k].kind.WRITE_AT_EXIT? != exit then r else Submit(r, k, ReplyTo(rs, k))
  {
    hide Submit;
  }

  lemma FreedNone(freed: multiset<Buffer>, instrs: seq<Instruction>)
    ensures freed == freed + BuffersOf(instrs[..0])
  {
  }

  lemma FreedOneMore(freed: multiset<Buffer>, instrs: seq<Instruction>, i: nat)
    requires i < |instrs|
    ensures freed + BuffersOf(instrs[..i]) + BufferOf(instrs[i]) == freed + BuffersOf(instrs[..i + 1])
  {
    BuffersAppend(instrs[..i], instrs[i]);
    assert instrs[..i + 1] == instrs[..i] + [instrs[i]];
    hide BufferOf, BuffersOf;
  }

  /** validate_instruction: the name first, then what the kind of the instruction needs. */
  method ValidateInstruction(i: Instruction) returns (ok: bool)
    ensures ok <==> Acceptable(i)
  {
    if i.uuid == None || |i.uuid.value| == 0 {
      return false;
    }
    if i.kind == READ_PERIODIC && i.interval == 0 {
      return false;
    }
    if (i.kind == WRITE_AT_INIT || i.kind == WRITE_AT_EXIT || i.kind == WRITE_ONCE) && i.buffer == None {
      return false;
    }
    return true;
  }

  /** validate_instructions */
  method ValidateInstructions(instrs: seq<Instruction>) returns (ok: bool)
    ensures ok <==> forall i :: 0 <= i < |instrs| ==> Acceptable(instrs[i])
  {
    var i := 0;
    while i < |instrs|
      invariant 0 <= i <= |instrs| && forall j :: 0 <= j < i ==> Acceptable(instrs[j])
    {
      var valid := ValidateInstruction(instrs[i]);
      if !valid {
        return false;
      }
      i := i + 1;
    }
    return true;
  }

  /** BLEIO_Seq_Create */
  method Create(gatt: bool, instrs: Option<seq<Instruction>>, alloc: bool) returns (r: Handle?)
    ensures r != null <==> gatt && alloc && instrs.Some? && Creatable(instrs.value)
    ensures r != null ==> fresh(r) && r.Valid() && r.State() == Created(instrs.value)
  {
    if !gatt || instrs == None || |instrs.value| == 0 {
      return null;
    }
    var valid := ValidateInstructions(instrs.value);
    if !valid || !alloc {
      return null;
    }
    r := new Handle(instrs.value);
  }
}
