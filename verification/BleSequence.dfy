/**
 * What the BLE instruction sequencer does (modules/ble/src/bleio_seq_linux.c and its schedule_*.c
 * files), as functions on a value, and what every run of it keeps.
 */
module BleSequence {
  import opened Bytes

  datatype Kind = READ_ONCE | READ_PERIODIC | WRITE_ONCE | WRITE_AT_INIT | WRITE_AT_EXIT

  /** The identity of a BUFFER_HANDLE. */
  type Buffer = nat

  /** interval and buffer share a union: the first is for READ_PERIODIC, the second for writes. */
  datatype Instruction = Instruction(kind: Kind, uuid: Option<string>, interval: nat, buffer: Option<Buffer>)

  datatype Status = IDLE | RUNNING | SHUTTING_DOWN | ERROR

  /** What becomes of a request: it is refused, goes on after the call, or completes inside it. */
  datatype Reply = Refused | Pending | AtOnce

  /** The replies to the elements of the vector. */
  datatype Replies = Replies(refused: set<nat>, atOnce: set<nat>)

  /** The instruction of a pending operation: an element of the vector, or a copy of its own. */
  datatype Source = Entry(i: nat) | Own(instr: Instruction)

  /** A read or write that the GATT layer accepted. */
  datatype Request = ReadOf(src: Source) | WriteOf(src: Source)

  /** The operations in progress: reads and writes submitted and timers running. */
  datatype Io = Io(reading: seq<Source>, writing: seq<Source>, timers: seq<Source>)

  /** The buffers given to the sequence and those it deleted. */
  datatype Ledger = Ledger(handed: multiset<Buffer>, freed: multiset<Buffer>)

  /**
   * A BLEIO_SEQ_HANDLE_DATA.  base is the reference that Destroy gives up; submitted lists the
   * elements of the vector that were accepted and requests every request made; destroyed counts the
   * calls of on_destroy_complete, which is set when notify is.
   */
  datatype State = State(status: Status, instrs: seq<Instruction>, refs: int, base: bool, notify: bool,
                         io: Io, buffers: Ledger, submitted: seq<nat>, requests: seq<Request>, destroyed: nat)

  predicate IsWrite(k: Kind) {
    k.WRITE_AT_INIT? || k.WRITE_AT_EXIT? || k.WRITE_ONCE?
  }

  /** validate_instruction */
  predicate Acceptable(i: Instruction) {
    && i.uuid.Some? && i.uuid.value != ""
    && (i.kind.READ_PERIODIC? ==> i.interval > 0)
    && (IsWrite(i.kind) ==> i.buffer.Some?)
  }

  /** The buffer an instruction still has to have deleted. */
  function BufferOf(i: Instruction): multiset<Buffer> {
    if IsWrite(i.kind) && i.buffer.Some? then multiset{i.buffer.value} else multiset{}
  }

  function BuffersOf(instrs: seq<Instruction>): multiset<Buffer> {
    if instrs == [] then multiset{} else BuffersOf(instrs[..|instrs| - 1]) + BufferOf(instrs[|instrs| - 1])
  }

  function Created(instrs: seq<Instruction>): State {
    State(IDLE, instrs, 1, true, false, Io([], [], []), Ledger(BuffersOf(instrs), multiset{}), [], [], 0)
  }

  // ----- The operations -----

  function ReplyTo(rs: Replies, k: nat): Reply {
    if k in rs.refused then Refused else if k in rs.atOnce then AtOnce else Pending
  }

  function Without<T>(s: seq<T>, k: nat): seq<T>
    requires k < |s|
  {
    s[..k] + s[k + 1..]
  }

  /** The number of references that should be there. */
  function Expected(base: bool, io: Io): nat {
    (if base then 1 else 0) + |io.reading| + |io.writing| + |io.timers|
  }

  /** dec_ref_handle: the last reference reports the end, deletes what is left and frees the handle. */
  function DecRef(s: State): State {
    if s.refs == 1 then
      s.(refs := 0, destroyed := s.destroyed + (if s.notify then 1 else 0),
         buffers := s.buffers.(freed := s.buffers.freed + BuffersOf(s.instrs)), instrs := [])
    else s.(refs := s.refs - 1)
  }

  function ReadComplete(s: State, k: nat): State
    requires k < |s.io.reading|
  {
    DecRef(s.(io := s.io.(reading := Without(s.io.reading, k))))
  }

  /** on_write_complete deletes the buffer, whether the write succeeded or not, and then gives up its reference. */
  function Written(s: State, k: nat): State
    requires k < |s.io.writing| && (s.io.writing[k].Entry? ==> s.io.writing[k].i < |s.instrs|)
  {
    var r := s.(io := s.io.(writing := Without(s.io.writing, k)));
    match s.io.writing[k]
    case Entry(i) => r.(buffers := s.buffers.(freed := s.buffers.freed + BufferOf(s.instrs[i])),
                        instrs := s.instrs[i := s.instrs[i].(buffer := None)])
    case Own(instr) => r.(buffers := s.buffers.(freed := s.buffers.freed + BufferOf(instr)))
  }

  function WriteComplete(s: State, k: nat): State
    requires k < |s.io.writing| && (s.io.writing[k].Entry? ==> s.io.writing[k].i < |s.instrs|)
  {
    DecRef(Written(s, k))
  }

  function ReadPending(s: State, src: Source): State {
    s.(refs := s.refs + 1, io := s.io.(reading := s.io.reading + [src]), requests := s.requests + [ReadOf(src)])
  }

  function WritePending(s: State, src: Source): State {
    s.(refs := s.refs + 1, io := s.io.(writing := s.io.writing + [src]), requests := s.requests + [WriteOf(src)])
  }

  function ScheduleRead(s: State, src: Source, reply: Reply): State {
    match reply
    case Refused => s
    case Pending => ReadPending(s, src)
    case AtOnce => ReadComplete(ReadPending(s, src), |s.io.reading|)
  }

  function ScheduleWrite(s: State, src: Source, reply: Reply): State
    requires src.Entry? ==> src.i < |s.instrs|
  {
    match reply
    case Refused => s
    case Pending => WritePending(s, src)
    case AtOnce => WriteComplete(WritePending(s, src), |s.io.writing|)
  }

  function SchedulePeriodic(s: State, src: Source, ok: bool): State {
    if ok then s.(refs := s.refs + 1, io := s.io.(timers := s.io.timers + [src])) else s
  }

  /** schedule_instruction; a WRITE_AT_EXIT instruction is only remembered. */
  function Schedule(s: State, instr: Instruction, src: Source, reply: Reply): State
    requires src.Entry? ==> src.i < |s.instrs|
  {
    match instr.kind
    case READ_ONCE => ScheduleRead(s, src, reply)
    case READ_PERIODIC => SchedulePeriodic(s, src, !reply.Refused?)
    case WRITE_ONCE | WRITE_AT_INIT => ScheduleWrite(s, src, reply)
    case WRITE_AT_EXIT => if reply.Refused? then s else s.(instrs := s.instrs + [instr])
  }

  /** The k-th element is submitted by its kind, or as the write it is at the exit. */
  function Submit(s: State, k: nat, reply: Reply): State
    requires k < |s.instrs|
  {
    if reply.Refused? then s
    else
      var t := s.(submitted := s.submitted + [k]);
      if s.instrs[k].kind.WRITE_AT_EXIT? then ScheduleWrite(t, Entry(k), reply)
      else Schedule(t, s.instrs[k], Entry(k), reply)
  }

  lemma ScheduleWriteEffect(s: State, k: nat, reply: Reply)
    requires k < |s.instrs| && s.refs > 0 && !reply.Refused? && IsWrite(s.instrs[k].kind)
    ensures var r := ScheduleWrite(s, Entry(k), reply);
            var q := s.(requests := s.requests + [WriteOf(Entry(k))]);
            if reply.Pending? then r == q.(refs := s.refs + 1, io := s.io.(writing := s.io.writing + [Entry(k)]))
            else r == q.(instrs := s.instrs[k := s.instrs[k].(buffer := None)],
                         buffers := s.buffers.(freed := s.buffers.freed + BufferOf(s.instrs[k])))
  {
    hide BufferOf, BuffersOf;
    assert Without(s.io.writing + [Entry(k)], |s.io.writing|) == s.io.writing;
  }

  lemma ScheduleReadEffect(s: State, src: Source, reply: Reply)
    requires s.refs > 0 && !reply.Refused?
    ensures var q := s.(requests := s.requests + [ReadOf(src)]);
            ScheduleRead(s, src, reply)
            == if reply.Pending? then q.(refs := s.refs + 1, io := s.io.(reading := s.io.reading + [src])) else q
  {
    hide BuffersOf;
    assert Without(s.io.reading + [src], |s.io.reading|) == s.io.reading;
  }

  /** The request an instruction makes when it is scheduled; a timer makes its requests later. */
  function RequestOf(kind: Kind, src: Source): seq<Request> {
    match kind
    case READ_ONCE => [ReadOf(src)]
    case READ_PERIODIC => []
    case WRITE_ONCE | WRITE_AT_INIT | WRITE_AT_EXIT => [WriteOf(src)]
  }

  /** What a submission does to the vector and the operations in progress, as long as the handle lives. */
  lemma SubmitEffect(s: State, k: nat, reply: Reply)
    requires k < |s.instrs| && s.refs > 0
    ensures var (r, kind) := (Submit(s, k, reply), s.instrs[k].kind);
            && r == s.(refs := r.refs, instrs := r.instrs, io := r.io, buffers := r.buffers, submitted := r.submitted,
                       requests := r.requests)
            && r.refs - Expected(s.base, r.io) == s.refs - Expected(s.base, s.io)
            && r.refs >= s.refs && r.buffers.handed == s.buffers.handed
            && r.requests == s.requests + (if reply.Refused? then [] else RequestOf(kind, Entry(k)))
            && r.submitted == s.submitted + (if reply.Refused? then [] else [k])
            && r.instrs == (if reply.AtOnce? && IsWrite(kind) then s.instrs[k := s.instrs[k].(buffer := None)]
                            else s.instrs)
            && r.buffers.freed == s.buffers.freed
                                  + (if reply.AtOnce? && IsWrite(kind) then BufferOf(s.instrs[k]) else multiset{})
            && r.io.reading == s.io.reading + (if reply.Pending? && kind.READ_ONCE? then [Entry(k)] else [])
            && r.io.writing == s.io.writing + (if reply.Pending? && IsWrite(kind) then [Entry(k)] else [])
            && r.io.timers == s.io.timers + (if !reply.Refused? && kind.READ_PERIODIC? then [Entry(k)] else [])
  {
    if !reply.Refused? {
      var t := s.(submitted := s.submitted + [k]);
      ScheduleReadEffect(t, Entry(k), reply);
      if IsWrite(s.instrs[k].kind) { ScheduleWriteEffect(t, k, reply); }
    }
    assert s.io.reading + [] == s.io.reading && s.io.writing + [] == s.io.writing && s.io.timers + [] == s.io.timers;
    assert s.requests + [] == s.requests;
    hide BufferOf, BuffersOf, ScheduleRead, ScheduleWrite;
  }

  predicate SameKinds(a: seq<Instruction>, b: seq<Instruction>) {
    |a| == |b| && forall i :: 0 <= i < |a| ==> a[i].kind == b[i].kind
  }

  lemma SubmitShape(s: State, k: nat, reply: Reply, instrs: seq<Instruction>)
    requires k < |s.instrs| && s.refs > 0 && SameKinds(s.instrs, instrs)
    ensures Submit(s, k, reply).refs > 0 && SameKinds(Submit(s, k, reply).instrs, instrs)
  {
    SubmitEffect(s, k, reply);
    hide Submit;
  }

  /** The k-th element is submitted if it is one of those for the exit, or one of the others. */
  function SubmitIf(s: State, rs: Replies, exit: bool, k: nat): (r: State)
    requires k < |s.instrs| && s.refs > 0
    ensures r.refs > 0 && SameKinds(r.instrs, s.instrs)
  {
    SubmitShape(s, k, ReplyTo(rs, k), s.instrs);
    if s.instrs[k].kind.WRITE_AT_EXIT? == exit then Submit(s, k, ReplyTo(rs, k)) else s
  }

  /** The first k elements are submitted that are for the exit, or those that are not. */
  function Submitted(s: State, rs: Replies, exit: bool, k: nat): (r: State)
    requires k <= |s.instrs| && s.refs > 0
    ensures r.refs > 0 && SameKinds(r.instrs, s.instrs)
  {
    if k == 0 then s else SubmitIf(Submitted(s, rs, exit, k - 1), rs, exit, k - 1)
  }

  /** The first element from k on that is not for the exit and fails to be scheduled, or the length. */
  function FirstFailure(instrs: seq<Instruction>, failed: set<nat>, k: nat): (n: nat)
    requires k <= |instrs|
    ensures k <= n <= |instrs|
    decreases |instrs| - k
  {
    if k == |instrs| || (!instrs[k].kind.WRITE_AT_EXIT? && k in failed) then k
    else FirstFailure(instrs, failed, k + 1)
  }

  predicate AllForExit(instrs: seq<Instruction>) {
    forall i :: 0 <= i < |instrs| ==> instrs[i].kind.WRITE_AT_EXIT?
  }

  /** stale is what the result holds when no instruction sets it. */
  function RunOk(s: State, rs: Replies, stale: bool): bool {
    s.status.IDLE? && if AllForExit(s.instrs) then stale else FirstFailure(s.instrs, rs.refused, 0) == |s.instrs|
  }

  function Run(s: State, rs: Replies, stale: bool): State
    requires s.refs > 0
  {
    var r := if s.status.IDLE? then Submitted(s.(status := RUNNING), rs, false, FirstFailure(s.instrs, rs.refused, 0))
             else s;
    r.(status := if RunOk(s, rs, stale) then RUNNING else ERROR)
  }

  predicate CanAdd(s: State, instr: Instruction) {
    Acceptable(instr) && s.status.RUNNING?
  }

  function Add(s: State, instr: Instruction, reply: Reply): State {
    if !CanAdd(s, instr) || reply.Refused? then s
    else Schedule(s.(buffers := s.buffers.(handed := s.buffers.handed + BufferOf(instr))), instr, Own(instr), reply)
  }

  function Destroy(s: State, notify: bool, rs: Replies): State
    requires s.refs > 0
  {
    DecRef(Submitted(s.(notify := notify, status := SHUTTING_DOWN), rs, true, |s.instrs|).(base := false))
  }

  /** on_timer reads again while the sequence is running and is removed otherwise. */
  function Tick(s: State, k: nat, reply: Reply): State
    requires k < |s.io.timers|
  {
    if s.status.RUNNING? then ScheduleRead(s, s.io.timers[k], reply)
    else DecRef(s.(io := s.io.(timers := Without(s.io.timers, k))))
  }

  // ----- The invariant -----

  function OwnBuffer(src: Source): multiset<Buffer> {
    if src.Own? then BufferOf(src.instr) else multiset{}
  }

  function OwnBuffers(ops: seq<Source>): multiset<Buffer> {
    if ops == [] then multiset{} else OwnBuffers(ops[..|ops| - 1]) + OwnBuffer(ops[|ops| - 1])
  }

  /** Buffers are freed, waiting in the vector, or with a write that is in progress. */
  ghost predicate Conserved(instrs: seq<Instruction>, writing: seq<Source>, buffers: Ledger) {
    forall b :: ConservedAt(instrs, writing, buffers, b)
  }

  predicate ConservedAt(instrs: seq<Instruction>, writing: seq<Source>, buffers: Ledger, b: Buffer) {
    buffers.handed[b] == buffers.freed[b] + BuffersOf(instrs)[b] + OwnBuffers(writing)[b]
  }

  /** The element a write in progress was submitted for still has its buffer. */
  predicate WriteOk(instrs: seq<Instruction>, submitted: seq<nat>, src: Source) {
    src.Entry? ==>
      src.i < |instrs| && IsWrite(instrs[src.i].kind) && instrs[src.i].buffer.Some? && src.i in submitted
  }

  /** No element of the vector is written twice at a time. */
  predicate Distinct(ops: seq<Source>) {
    forall i, j :: 0 <= i < j < |ops| && ops[i].Entry? ==> ops[i] != ops[j]
  }

  /** An element that was never submitted has its buffer. */
  predicate Untouched(instrs: seq<Instruction>, submitted: seq<nat>) {
    forall i :: 0 <= i < |instrs| && i !in submitted && IsWrite(instrs[i].kind) ==> instrs[i].buffer.Some?
  }

  predicate WritesOk(instrs: seq<Instruction>, submitted: seq<nat>, writing: seq<Source>) {
    && Distinct(writing) && Untouched(instrs, submitted)
    && (forall k :: 0 <= k < |writing| ==> WriteOk(instrs, submitted, writing[k]))
  }

  /** No element is submitted twice, and none for the exit before Destroy. */
  predicate SubmittedOk(status: Status, instrs: seq<Instruction>, submitted: seq<nat>) {
    && (forall i, j :: 0 <= i < j < |submitted| ==> submitted[i] != submitted[j])
    && (!status.SHUTTING_DOWN? ==>
          forall i :: 0 <= i < |submitted| ==> submitted[i] < |instrs| && !instrs[submitted[i]].kind.WRITE_AT_EXIT?)
  }

  predicate EndOk(s: State) {
    && (s.refs == 0 ==> s.instrs == [])
    && (s.status.IDLE? ==> s.io == Io([], [], []) && s.submitted == [])
    && s.destroyed == if s.refs == 0 && s.notify then 1 else 0
  }

  /** What holds between any two steps of a call. */
  ghost predicate Mid(s: State) {
    && s.refs == Expected(s.base, s.io) && EndOk(s) && SubmittedOk(s.status, s.instrs, s.submitted)
    && Conserved(s.instrs, s.io.writing, s.buffers) && WritesOk(s.instrs, s.submitted, s.io.writing)
  }

  /** What holds between calls: only Destroy gives up the base reference. */
  ghost predicate Inv(s: State) {
    Mid(s) && (s.base <==> !s.status.SHUTTING_DOWN?)
  }

  // ----- Buffers -----

  lemma ClearedBuffer(instr: Instruction)
    ensures BufferOf(instr.(buffer := None)) == multiset{}
  {
  }

  lemma {:induction false} BuffersClear(instrs: seq<Instruction>, i: nat, b: Buffer)
    requires i < |instrs|
    ensures BuffersOf(instrs[i := instrs[i].(buffer := None)])[b] + BufferOf(instrs[i])[b] == BuffersOf(instrs)[b]
  {
    hide BufferOf;
    var (r, last) := (instrs[i := instrs[i].(buffer := None)], |instrs| - 1);
    if i == last {
      ClearedBuffer(instrs[i]);
      assert r[..last] == instrs[..last];
    } else {
      BuffersClear(instrs[..last], i, b);
      assert r[..last] == instrs[..last][i := instrs[i].(buffer := None)];
    }
  }

  lemma {:induction false} OwnWithout(ops: seq<Source>, k: nat, b: Buffer)
    requires k < |ops|
    ensures OwnBuffers(ops)[b] == OwnBuffers(Without(ops, k))[b] + OwnBuffer(ops[k])[b]
  {
    hide OwnBuffer;
    var (r, last) := (Without(ops, k), |ops| - 1);
    if k == last {
      assert r == ops[..last];
    } else {
      OwnWithout(ops[..last], k, b);
      assert r[..last - 1] == Without(ops[..last], k);
    }
  }

  lemma OwnAppend(ops: seq<Source>, src: Source)
    ensures OwnBuffers(ops + [src]) == OwnBuffers(ops) + OwnBuffer(src)
    ensures src.Entry? ==> OwnBuffers(ops + [src]) == OwnBuffers(ops)
  {
    assert (ops + [src])[..|ops|] == ops;
    hide BufferOf;
  }

  lemma BuffersAppend(instrs: seq<Instruction>, instr: Instruction)
    ensures BuffersOf(instrs + [instr]) == BuffersOf(instrs) + BufferOf(instr)
  {
    assert (instrs + [instr])[..|instrs|] == instrs;
  }

  // ----- Scheduling what is in the vector -----

  lemma ConservedIf(instrs: seq<Instruction>, ops: seq<Source>, l: Ledger, instrs2: seq<Instruction>, ops2: seq<Source>,
                    l2: Ledger)
    requires Conserved(instrs, ops, l)
    requires forall b: Buffer ::
               l2.handed[b] + l.freed[b] + BuffersOf(instrs)[b] + OwnBuffers(ops)[b]
               == l.handed[b] + l2.freed[b] + BuffersOf(instrs2)[b] + OwnBuffers(ops2)[b]
    ensures Conserved(instrs2, ops2, l2)
  {
    hide BuffersOf, OwnBuffers;
    forall b ensures ConservedAt(instrs2, ops2, l2, b) {
      assert ConservedAt(instrs, ops, l, b);
    }
  }

  // ----- Submitting one element -----

  lemma AppendOk(instrs: seq<Instruction>, submitted: seq<nat>, ops: seq<Source>, src: Source)
    requires WritesOk(instrs, submitted, ops) && WriteOk(instrs, submitted, src) && (src.Entry? ==> src !in ops)
    ensures WritesOk(instrs, submitted, ops + [src])
  {
  }

  lemma MarkOk(instrs: seq<Instruction>, submitted: seq<nat>, ops: seq<Source>, k: nat)
    requires WritesOk(instrs, submitted, ops) && k < |instrs| && k !in submitted
    ensures WritesOk(instrs, submitted + [k], ops) && Entry(k) !in ops
    ensures IsWrite(instrs[k].kind) ==> WriteOk(instrs, submitted + [k], Entry(k))
  {
  }

  /** A completed write takes its buffer out of the vector. */
  lemma ClearOk(instrs: seq<Instruction>, submitted: seq<nat>, ops: seq<Source>, i: nat)
    requires WritesOk(instrs, submitted, ops) && i < |instrs| && Entry(i) !in ops && i in submitted
    ensures WritesOk(instrs[i := instrs[i].(buffer := None)], submitted, ops)
  {
  }

  lemma SubmitWrites(s: State, k: nat, reply: Reply)
    requires k < |s.instrs| && s.refs > 0 && k !in s.submitted && WritesOk(s.instrs, s.submitted, s.io.writing)
    ensures var r := Submit(s, k, reply); WritesOk(r.instrs, r.submitted, r.io.writing)
  {
    SubmitEffect(s, k, reply);
    MarkOk(s.instrs, s.submitted, s.io.writing, k);
    if IsWrite(s.instrs[k].kind) {
      AppendOk(s.instrs, s.submitted + [k], s.io.writing, Entry(k));
    }
    ClearOk(s.instrs, s.submitted + [k], s.io.writing, k);
    assert s.io.writing + [] == s.io.writing && s.submitted + [] == s.submitted;
    hide WritesOk, WriteOk, Submit;
  }

  lemma SubmitConserves(s: State, k: nat, reply: Reply)
    requires k < |s.instrs| && s.refs > 0 && Conserved(s.instrs, s.io.writing, s.buffers)
    ensures var r := Submit(s, k, reply); Conserved(r.instrs, r.io.writing, r.buffers)
  {
    var r := Submit(s, k, reply);
    SubmitEffect(s, k, reply);
    OwnAppend(s.io.writing, Entry(k));
    assert s.io.writing + [] == s.io.writing;
    hide Submit, Conserved, BufferOf, BuffersOf, OwnBuffers;
    forall b: Buffer
      ensures r.buffers.handed[b] + s.buffers.freed[b] + BuffersOf(s.instrs)[b] + OwnBuffers(s.io.writing)[b]
           == s.buffers.handed[b] + r.buffers.freed[b] + BuffersOf(r.instrs)[b] + OwnBuffers(r.io.writing)[b]
    {
      BuffersClear(s.instrs, k, b);
    }
    ConservedIf(s.instrs, s.io.writing, s.buffers, r.instrs, r.io.writing, r.buffers);
  }

  /** Submitting an element keeps everything in order and the handle alive, even if the request completes at once. */
  lemma SubmitKeeps(s: State, k: nat, reply: Reply)
    requires Mid(s) && k < |s.instrs| && s.refs > 0 && k !in s.submitted && !s.status.IDLE?
    requires s.instrs[k].kind.WRITE_AT_EXIT? ==> s.status.SHUTTING_DOWN?
    ensures Mid(Submit(s, k, reply)) && Submit(s, k, reply).refs > 0
  {
    SubmitWrites(s, k, reply);
    SubmitConserves(s, k, reply);
    SubmitEffect(s, k, reply);
    hide WritesOk, Conserved, Submit, Expected, BufferOf;
  }

  // ----- Submitting many -----

  /** The elements submitted are those from before and, of the first k, those of the sort that are accepted. */
  ghost predicate Lists(submitted: seq<nat>, before: seq<nat>, instrs: seq<Instruction>, rs: Replies, exit: bool,
                        k: nat)
  {
    forall i: nat :: i in submitted <==>
      i in before || (i < k && i < |instrs| && instrs[i].kind.WRITE_AT_EXIT? == exit && i !in rs.refused)
  }

  lemma ListsStep(submitted: seq<nat>, before: seq<nat>, instrs: seq<Instruction>, rs: Replies, exit: bool, k: nat)
    requires Lists(submitted, before, instrs, rs, exit, k) && k < |instrs|
    ensures var more := instrs[k].kind.WRITE_AT_EXIT? == exit && k !in rs.refused;
            Lists(submitted + if more then [k] else [], before, instrs, rs, exit, k + 1)
  {
  }

  /** What the submission of the first k elements of one sort has done. */
  ghost predicate SubmittedTo(s: State, r: State, rs: Replies, exit: bool, k: nat) {
    && Mid(r) && r.refs > 0 && SameKinds(r.instrs, s.instrs)
    && r == s.(refs := r.refs, instrs := r.instrs, io := r.io, buffers := r.buffers, submitted := r.submitted,
               requests := r.requests)
    && Lists(r.submitted, s.submitted, s.instrs, rs, exit, k)
  }

  /** None of the elements of this sort has been submitted before. */
  predicate Unsubmitted(s: State, exit: bool) {
    forall i :: 0 <= i < |s.instrs| && s.instrs[i].kind.WRITE_AT_EXIT? == exit ==> i !in s.submitted
  }

  lemma SubmittedStep(s: State, r: State, rs: Replies, exit: bool, k: nat)
    requires SubmittedTo(s, r, rs, exit, k) && k < |s.instrs| && Unsubmitted(s, exit)
    requires !s.status.IDLE? && (exit ==> s.status.SHUTTING_DOWN?)
    ensures SubmittedTo(s, SubmitIf(r, rs, exit, k), rs, exit, k + 1)
  {
    assert r.instrs[k].kind == s.instrs[k].kind;
    ListsStep(r.submitted, s.submitted, s.instrs, rs, exit, k);
    assert r.submitted + [] == r.submitted;
    assert SameKinds(SubmitIf(r, rs, exit, k).instrs, s.instrs) by { hide Submit, Mid, Lists; }
    if s.instrs[k].kind.WRITE_AT_EXIT? == exit {
      assert k !in r.submitted;
      hide Lists, SameKinds, Unsubmitted;
      SubmitKeeps(r, k, ReplyTo(rs, k));
      SubmitEffect(r, k, ReplyTo(rs, k));
      hide Submit, Mid, Expected, BufferOf;
    }
    hide Submit, Mid, Lists, SameKinds;
  }

  lemma {:induction false} SubmittedKeeps(s: State, rs: Replies, exit: bool, k: nat)
    requires Mid(s) && s.refs > 0 && k <= |s.instrs| && Unsubmitted(s, exit)
    requires !s.status.IDLE? && (exit ==> s.status.SHUTTING_DOWN?)
    ensures SubmittedTo(s, Submitted(s, rs, exit, k), rs, exit, k)
  {
    hide Mid, SubmitIf;
    if k == 0 {
      assert SubmittedTo(s, s, rs, exit, 0);
    } else {
      SubmittedKeeps(s, rs, exit, k - 1);
      SubmittedStep(s, Submitted(s, rs, exit, k - 1), rs, exit, k - 1);
      hide SubmittedTo, Unsubmitted;
    }
  }

  // ----- The calls -----

  lemma RunKeeps(s: State, rs: Replies, stale: bool)
    requires Inv(s) && s.base && s.refs > 0
    ensures Inv(Run(s, rs, stale)) && Run(s, rs, stale).base && Run(s, rs, stale).refs > 0
  {
    if s.status.IDLE? {
      var t := s.(status := RUNNING);
      SubmittedKeeps(t, rs, false, FirstFailure(s.instrs, rs.refused, 0));
      hide FirstFailure, Submitted, WritesOk, Conserved, Expected, SameKinds;
    } else {
      hide WritesOk, Conserved, Expected;
    }
  }

  /** A state whose one reference too many is about to be given up. */
  ghost predicate OneTooMany(s: State) {
    && s.refs == Expected(s.base, s.io) + 1 && s.destroyed == 0 && !s.status.IDLE?
    && SubmittedOk(s.status, s.instrs, s.submitted)
    && Conserved(s.instrs, s.io.writing, s.buffers) && WritesOk(s.instrs, s.submitted, s.io.writing)
    && (s.refs == 1 ==> s.status.SHUTTING_DOWN?)
  }

  lemma DecRefKeeps(s: State)
    requires OneTooMany(s)
    ensures Mid(DecRef(s))
  {
    var r := DecRef(s);
    if s.refs == 1 {
      assert s.io.writing == [];
      assert BuffersOf([]) == multiset{};
      assert WritesOk([], s.submitted, []);
    }
    forall b ensures ConservedAt(r.instrs, r.io.writing, r.buffers, b) {
      assert ConservedAt(s.instrs, s.io.writing, s.buffers, b);
      hide BufferOf, WritesOk, BuffersOf, OwnBuffers;
    }
    hide WritesOk, BuffersOf, OwnBuffers, ConservedAt;
  }

  lemma WithoutOk(instrs: seq<Instruction>, submitted: seq<nat>, ops: seq<Source>, k: nat)
    requires WritesOk(instrs, submitted, ops) && k < |ops|
    ensures WritesOk(instrs, submitted, Without(ops, k))
    ensures ops[k].Entry? ==> ops[k] !in Without(ops, k)
  {
    forall j | 0 <= j < |ops| - 1 ensures Without(ops, k)[j] == ops[if j < k then j else j + 1] {}
  }

  lemma ReadKeeps(s: State, k: nat)
    requires Inv(s) && k < |s.io.reading|
    ensures Inv(ReadComplete(s, k))
  {
    DecRefKeeps(s.(io := s.io.(reading := Without(s.io.reading, k))));
    hide WritesOk, OwnBuffers, BuffersOf;
  }

  lemma WrittenConserves(s: State, k: nat)
    requires k < |s.io.writing| && (s.io.writing[k].Entry? ==> s.io.writing[k].i < |s.instrs|)
    requires Conserved(s.instrs, s.io.writing, s.buffers)
    ensures var r := Written(s, k); Conserved(r.instrs, r.io.writing, r.buffers)
  {
    var r := Written(s, k);
    forall b ensures ConservedAt(r.instrs, r.io.writing, r.buffers, b) {
      assert ConservedAt(s.instrs, s.io.writing, s.buffers, b);
      OwnWithout(s.io.writing, k, b);
      if s.io.writing[k].Entry? { BuffersClear(s.instrs, s.io.writing[k].i, b); }
      hide BuffersOf, OwnBuffers, BufferOf, Without;
    }
  }

  lemma WriteKeeps(s: State, k: nat)
    requires Inv(s) && k < |s.io.writing|
    ensures WriteOk(s.instrs, s.submitted, s.io.writing[k]) && Inv(WriteComplete(s, k))
  {
    var src := s.io.writing[k];
    assert WriteOk(s.instrs, s.submitted, src);
    WithoutOk(s.instrs, s.submitted, s.io.writing, k);
    if src.Entry? {
      ClearOk(s.instrs, s.submitted, Without(s.io.writing, k), src.i);
    }
    hide WritesOk, BufferOf;
    WrittenConserves(s, k);
    hide Conserved;
    assert |Without(s.io.writing, k)| == |s.io.writing| - 1;
    DecRefKeeps(Written(s, k));
  }

  lemma TickKeeps(s: State, k: nat, reply: Reply)
    requires Inv(s) && k < |s.io.timers|
    ensures Inv(Tick(s, k, reply))
  {
    if !s.status.RUNNING? {
      DecRefKeeps(s.(io := s.io.(timers := Without(s.io.timers, k))));
    } else {
      assert Without(s.io.reading + [s.io.timers[k]], |s.io.reading|) == s.io.reading;
    }
    hide WritesOk, OwnBuffers, BuffersOf;
  }

  /** What an accepted AddInstruction does; a request that completes at once has its buffer deleted. */
  lemma AddEffect(s: State, instr: Instruction, reply: Reply)
    requires CanAdd(s, instr) && !reply.Refused? && s.refs > 0
    ensures var (r, kind) := (Add(s, instr, reply), instr.kind);
            && r == s.(refs := r.refs, instrs := r.instrs, io := r.io, buffers := r.buffers, requests := r.requests)
            && r.requests == s.requests + (if kind.WRITE_AT_EXIT? then [] else RequestOf(kind, Own(instr)))
            && r.refs - Expected(s.base, r.io) == s.refs - Expected(s.base, s.io) && r.refs >= s.refs
            && r.instrs == s.instrs + (if kind.WRITE_AT_EXIT? then [instr] else [])
            && r.buffers.handed == s.buffers.handed + BufferOf(instr)
            && r.buffers.freed == s.buffers.freed
                 + (if reply.AtOnce? && IsWrite(kind) && !kind.WRITE_AT_EXIT? then BufferOf(instr) else multiset{})
            && r.io.writing == s.io.writing
                 + (if reply.Pending? && IsWrite(kind) && !kind.WRITE_AT_EXIT? then [Own(instr)] else [])
            && r.io.reading == s.io.reading + (if reply.Pending? && kind.READ_ONCE? then [Own(instr)] else [])
            && r.io.timers == s.io.timers + (if kind.READ_PERIODIC? then [Own(instr)] else [])
  {
    hide BufferOf, BuffersOf;
    assert Without(s.io.reading + [Own(instr)], |s.io.reading|) == s.io.reading;
    assert Without(s.io.writing + [Own(instr)], |s.io.writing|) == s.io.writing;
    assert s.requests + [] == s.requests;
  }

  lemma AddConserves(s: State, instr: Instruction, reply: Reply)
    requires CanAdd(s, instr) && !reply.Refused? && s.refs > 0 && Conserved(s.instrs, s.io.writing, s.buffers)
    ensures var r := Add(s, instr, reply); Conserved(r.instrs, r.io.writing, r.buffers)
  {
    var r := Add(s, instr, reply);
    AddEffect(s, instr, reply);
    assert !IsWrite(instr.kind) ==> BufferOf(instr) == multiset{};
    assert s.io.writing + [] == s.io.writing && s.instrs + [] == s.instrs;
    OwnAppend(s.io.writing, Own(instr));
    BuffersAppend(s.instrs, instr);
    hide Add, Conserved, BufferOf, BuffersOf, OwnBuffers;
    ConservedIf(s.instrs, s.io.writing, s.buffers, r.instrs, r.io.writing, r.buffers);
  }

  lemma AddedWrites(instrs: seq<Instruction>, submitted: seq<nat>, ops: seq<Source>, instr: Instruction)
    requires WritesOk(instrs, submitted, ops) && (IsWrite(instr.kind) ==> instr.buffer.Some?)
    ensures WritesOk(instrs + [instr], submitted, ops)
    ensures WritesOk(instrs, submitted, ops + [Own(instr)])
  {
  }

  lemma AddKeeps(s: State, instr: Instruction, reply: Reply)
    requires Inv(s) && s.base && s.refs > 0
    ensures Inv(Add(s, instr, reply)) && Add(s, instr, reply).base && Add(s, instr, reply).refs > 0
  {
    if CanAdd(s, instr) && !reply.Refused? {
      AddEffect(s, instr, reply);
      AddConserves(s, instr, reply);
      AddedWrites(s.instrs, s.submitted, s.io.writing, instr);
      assert s.io.writing + [] == s.io.writing && s.instrs + [] == s.instrs;
      hide Add, WritesOk, Conserved, Expected, BufferOf, Acceptable;
    }
  }

  lemma DestroyKeeps(s: State, notify: bool, rs: Replies)
    requires Inv(s) && s.base && s.refs > 0
    ensures Inv(Destroy(s, notify, rs)) && !Destroy(s, notify, rs).base
  {
    var t := s.(notify := notify, status := SHUTTING_DOWN);
    assert Mid(t) && Unsubmitted(t, true) by { hide WritesOk, Conserved; }
    SubmittedKeeps(t, rs, true, |s.instrs|);
    var r := Submitted(t, rs, true, |s.instrs|);
    hide Submitted, WritesOk, Conserved, SameKinds, Unsubmitted;
    DecRefKeeps(r.(base := false));
  }

  // ----- Every run -----

  datatype Op =
    | OpRun(replies: Replies, stale: bool)
    | OpAdd(instr: Instruction, reply: Reply)
    | OpDestroy(notify: bool, replies: Replies)
    | OpRead(k: nat) | OpWrite(k: nat) | OpTick(k: nat, reply: Reply)

  /** The handle is not used after Destroy; what completes was submitted and what ticks is running. */
  predicate Allowed(s: State, op: Op) {
    match op
    case OpRun(_, _) | OpAdd(_, _) | OpDestroy(_, _) => s.base && s.refs > 0
    case OpRead(k) => k < |s.io.reading|
    case OpWrite(k) => k < |s.io.writing| && (s.io.writing[k].Entry? ==> s.io.writing[k].i < |s.instrs|)
    case OpTick(k, _) => k < |s.io.timers|
  }

  function Apply(s: State, op: Op): State
    requires Allowed(s, op)
  {
    match op
    case OpRun(rs, stale) => Run(s, rs, stale)
    case OpAdd(instr, reply) => Add(s, instr, reply)
    case OpDestroy(notify, rs) => Destroy(s, notify, rs)
    case OpRead(k) => ReadComplete(s, k)
    case OpWrite(k) => WriteComplete(s, k)
    case OpTick(k, reply) => Tick(s, k, reply)
  }

  lemma ApplyKeeps(s: State, op: Op)
    requires Inv(s) && Allowed(s, op)
    ensures Inv(Apply(s, op))
  {
    hide Inv, Run, Add, Destroy, ReadComplete, WriteComplete, Tick;
    match op
    case OpRun(rs, stale) => RunKeeps(s, rs, stale);
    case OpAdd(instr, reply) => AddKeeps(s, instr, reply);
    case OpDestroy(notify, rs) => DestroyKeeps(s, notify, rs);
    case OpRead(k) => ReadKeeps(s, k);
    case OpWrite(k) => WriteKeeps(s, k);
    case OpTick(k, reply) => TickKeeps(s, k, reply);
  }

  /** Until Destroy gives up its reference no operation frees the handle, whatever completes inside it. */
  lemma HandleSurvives(s: State, op: Op)
    requires Inv(s) && s.base && Allowed(s, op) && !op.OpDestroy?
    ensures var r := Apply(s, op); r.base && r.refs > 0 && r.destroyed == 0 && |r.instrs| >= |s.instrs|
  {
    ApplyKeeps(s, op);
    if op.OpAdd? && CanAdd(s, op.instr) && !op.reply.Refused? { AddEffect(s, op.instr, op.reply); }
    if op.OpRun? { RunKeeps(s, op.replies, op.stale); }
    hide Mid, Submitted, Add, FirstFailure, BuffersOf, BufferOf;
    assert s.refs == Expected(s.base, s.io) by { hide WritesOk, Conserved; }
    assert Apply(s, op).base;
    MidFacts(Apply(s, op));
  }

  lemma MidFacts(s: State)
    requires Mid(s) && s.base
    ensures s.refs > 0 && s.destroyed == 0
  {
    hide WritesOk, Conserved;
  }

  predicate CanApplyAll(s: State, ops: seq<Op>)
    decreases |ops|
  {
    ops == [] || (Allowed(s, ops[0]) && CanApplyAll(Apply(s, ops[0]), ops[1..]))
  }

  function ApplyAll(s: State, ops: seq<Op>): State
    requires CanApplyAll(s, ops)
    decreases |ops|
  {
    if ops == [] then s else ApplyAll(Apply(s, ops[0]), ops[1..])
  }

  lemma {:induction false} ApplyAllKeeps(s: State, ops: seq<Op>)
    requires Inv(s) && CanApplyAll(s, ops)
    ensures Inv(ApplyAll(s, ops))
    decreases |ops|
  {
    if ops != [] {
      ApplyKeeps(s, ops[0]);
      hide Inv, Apply, Allowed;
      ApplyAllKeeps(Apply(s, ops[0]), ops[1..]);
    }
  }

  predicate Creatable(instrs: seq<Instruction>) {
    instrs != [] && forall i :: 0 <= i < |instrs| ==> Acceptable(instrs[i])
  }

  lemma CreatedOk(instrs: seq<Instruction>)
    requires Creatable(instrs)
    ensures Inv(Created(instrs))
  {
    assert OwnBuffers([]) == multiset{};
    hide BuffersOf, OwnBuffers;
  }

  /** What is true of a sequence after any run of operations and completions. */
  lemma ReachedOk(instrs: seq<Instruction>, ops: seq<Op>)
    requires Creatable(instrs) && CanApplyAll(Created(instrs), ops)
    ensures Inv(ApplyAll(Created(instrs), ops))
  {
    CreatedOk(instrs);
    ApplyAllKeeps(Created(instrs), ops);
  }

  /**
   * The count is one until Destroy plus every read, write and timer in progress: nothing in progress
   * finds the handle freed, and on_destroy_complete is called once, when all of it has ended.
   */
  lemma ReferencesAreCounted(instrs: seq<Instruction>, ops: seq<Op>)
    requires Creatable(instrs) && CanApplyAll(Created(instrs), ops)
    ensures var s := ApplyAll(Created(instrs), ops);
            && s.refs == (if s.base then 1 else 0) + |s.io.reading| + |s.io.writing| + |s.io.timers|
            && (s.base || s.io.reading != [] || s.io.writing != [] || s.io.timers != [] ==> s.refs > 0)
            && s.destroyed == (if s.notify && !s.base && s.io == Io([], [], []) then 1 else 0)
  {
    ReachedOk(instrs, ops);
    hide ApplyAll, CanApplyAll, WritesOk, Conserved, SubmittedOk;
  }

  lemma AllFreed(s: State, b: Buffer)
    requires Inv(s) && s.refs == 0
    ensures s.buffers.freed[b] == s.buffers.handed[b]
  {
    assert ConservedAt(s.instrs, s.io.writing, s.buffers, b);
    assert s.io.writing == [] && s.instrs == [];
    hide WritesOk, SubmittedOk;
  }

  /**
   * No buffer is deleted more often than it was given to the sequence, and each is deleted exactly
   * as often by the time the handle is freed; a write in progress from the vector has its buffer.
   */
  lemma BuffersAreFreedOnce(instrs: seq<Instruction>, ops: seq<Op>, b: Buffer)
    requires Creatable(instrs) && CanApplyAll(Created(instrs), ops)
    ensures var s := ApplyAll(Created(instrs), ops);
            && s.buffers.freed[b] <= s.buffers.handed[b]
            && (s.refs == 0 ==> s.buffers.freed[b] == s.buffers.handed[b])
            && (forall k :: 0 <= k < |s.io.writing| && s.io.writing[k].Entry? ==>
                  s.io.writing[k].i < |s.instrs| && s.instrs[s.io.writing[k].i].buffer.Some?)
  {
    ReachedOk(instrs, ops);
    var s := ApplyAll(Created(instrs), ops);
    if s.refs == 0 {
      AllFreed(s, b);
    }
    assert ConservedAt(s.instrs, s.io.writing, s.buffers, b);
    assert forall k :: 0 <= k < |s.io.writing| ==> WriteOk(s.instrs, s.submitted, s.io.writing[k]);
    hide ApplyAll, CanApplyAll, OwnBuffers, BuffersOf, SubmittedOk;
  }

  /** No element of the vector is submitted twice, and those for the exit only by Destroy. */
  lemma ExitsOnlyAfterDestroy(instrs: seq<Instruction>, ops: seq<Op>)
    requires Creatable(instrs) && CanApplyAll(Created(instrs), ops)
    ensures var s := ApplyAll(Created(instrs), ops);
            && (forall i, j :: 0 <= i < j < |s.submitted| ==> s.submitted[i] != s.submitted[j])
            && (s.base ==> forall i :: i in s.submitted ==> i < |s.instrs| && !s.instrs[i].kind.WRITE_AT_EXIT?)
            && (forall k :: 0 <= k < |s.io.writing| && s.io.writing[k].Entry? ==> s.io.writing[k].i in s.submitted)
  {
    ReachedOk(instrs, ops);
    var s := ApplyAll(Created(instrs), ops);
    assert forall k :: 0 <= k < |s.io.writing| ==> WriteOk(s.instrs, s.submitted, s.io.writing[k]);
    hide ApplyAll, CanApplyAll, OwnBuffers, BuffersOf, Conserved;
  }

  /** Destroy submits every WRITE_AT_EXIT element of the vector that the GATT layer accepts, and no other. */
  lemma DestroySubmitsExits(s: State, notify: bool, rs: Replies, i: nat)
    requires Inv(s) && s.base && s.refs > 0
    ensures i in Destroy(s, notify, rs).submitted && i !in s.submitted <==>
            i < |s.instrs| && s.instrs[i].kind.WRITE_AT_EXIT? && i !in rs.refused
  {
    var t := s.(notify := notify, status := SHUTTING_DOWN);
    assert Mid(t) && Unsubmitted(t, true) by { hide WritesOk, Conserved; }
    SubmittedKeeps(t, rs, true, |s.instrs|);
    hide Mid, Submitted, SameKinds;
  }

  /** After Destroy each completion or tick gives up one reference, so the handle lives that many more. */
  lemma {:induction false} CountsDown(s: State, ops: seq<Op>)
    requires Inv(s) && !s.base && CanApplyAll(s, ops)
    ensures ApplyAll(s, ops).refs == s.refs - |ops| >= 0
    ensures ApplyAll(s, ops).destroyed == if s.notify && |ops| == s.refs then 1 else 0
    decreases |ops|
  {
    if ops != [] {
      ApplyKeeps(s, ops[0]);
      var r := Apply(s, ops[0]);
      assert !r.base && r.refs == s.refs - 1 && r.notify == s.notify by { hide WritesOk, Conserved, SubmittedOk; }
      hide Inv, Apply, Allowed;
      CountsDown(r, ops[1..]);
    } else {
      hide WritesOk, Conserved, SubmittedOk;
    }
  }

  /** A completed write of a vector element deletes its buffer, once, and the end will not do so again. */
  lemma WriteFreesItsBuffer(s: State, k: nat, i: nat)
    requires Inv(s) && k < |s.io.writing| && s.io.writing[k] == Entry(i)
    ensures i < |s.instrs| && s.instrs[i].buffer.Some?
    ensures s.refs > 1 ==>
              var (b, r) := (s.instrs[i].buffer.value, WriteComplete(s, k));
              && r.buffers.freed[b] == s.buffers.freed[b] + 1 && r.instrs[i].buffer == None
              && BuffersOf(r.instrs)[b] + 1 == BuffersOf(s.instrs)[b]
  {
    assert WriteOk(s.instrs, s.submitted, s.io.writing[k]);
    BuffersClear(s.instrs, i, s.instrs[i].buffer.value);
    hide WritesOk, Conserved, BuffersOf;
  }

  // ----- What Run does -----

  /** What has become of a submitted element: requested by its kind, and in progress or completed at once. */
  predicate Carried(kind: Kind, r: State, atOnce: set<nat>, i: nat)
    requires i < |r.instrs|
  {
    match kind
    case READ_ONCE => ReadOf(Entry(i)) in r.requests && (i in atOnce || Entry(i) in r.io.reading)
    case READ_PERIODIC => Entry(i) in r.io.timers
    case WRITE_ONCE | WRITE_AT_INIT | WRITE_AT_EXIT =>
      WriteOf(Entry(i)) in r.requests && if i in atOnce then r.instrs[i].buffer == None else Entry(i) in r.io.writing
  }

  predicate CarriedAll(instrs: seq<Instruction>, r: State, rs: Replies, k: nat) {
    && |r.instrs| == |instrs|
    && forall i :: 0 <= i < k && i < |instrs| && !instrs[i].kind.WRITE_AT_EXIT? && i !in rs.refused ==>
         Carried(instrs[i].kind, r, rs.atOnce, i)
  }

  lemma CarriedStep(instrs: seq<Instruction>, r: State, rs: Replies, k: nat)
    requires CarriedAll(instrs, r, rs, k) && k < |instrs| && r.refs > 0 && SameKinds(r.instrs, instrs)
    ensures CarriedAll(instrs, SubmitIf(r, rs, false, k), rs, k + 1)
  {
    SubmitEffect(r, k, ReplyTo(rs, k));
    hide Submit, Expected, BufferOf;
  }

  lemma {:induction false} SubmittedCarries(s: State, rs: Replies, k: nat)
    requires k <= |s.instrs| && s.refs > 0
    ensures CarriedAll(s.instrs, Submitted(s, rs, false, k), rs, k)
  {
    hide SubmitIf, Carried;
    if k > 0 {
      SubmittedCarries(s, rs, k - 1);
      CarriedStep(s.instrs, Submitted(s, rs, false, k - 1), rs, k - 1);
      hide CarriedAll;
    }
  }

  lemma {:induction false} FirstFailureIs(instrs: seq<Instruction>, failed: set<nat>, k: nat)
    requires k <= |instrs|
    ensures var n := FirstFailure(instrs, failed, k);
            && (forall i :: k <= i < n ==> instrs[i].kind.WRITE_AT_EXIT? || i !in failed)
            && (n < |instrs| ==> !instrs[n].kind.WRITE_AT_EXIT? && n in failed)
    decreases |instrs| - k
  {
    if FirstFailure(instrs, failed, k) != k {
      FirstFailureIs(instrs, failed, k + 1);
    }
  }

  lemma FirstFailureStep(instrs: seq<Instruction>, failed: set<nat>, k: nat)
    requires k <= |instrs|
    ensures FirstFailure(instrs, failed, k)
         == if k == |instrs| || (!instrs[k].kind.WRITE_AT_EXIT? && k in failed) then k
            else FirstFailure(instrs, failed, k + 1)
  {
  }

  lemma AllForExitPrefix(instrs: seq<Instruction>, k: nat)
    requires k <= |instrs|
    ensures AllForExit(instrs[..0])
    ensures k < |instrs| ==>
              (AllForExit(instrs[..k + 1]) <==> AllForExit(instrs[..k]) && instrs[k].kind.WRITE_AT_EXIT?)
    ensures k < |instrs| && AllForExit(instrs) ==> instrs[k].kind.WRITE_AT_EXIT?
  {
  }

  /**
   * The first Run submits each element once, by its kind and except those for the exit, up to the
   * first that is refused; it succeeds exactly when none is, if there is any to submit at all.
   */
  lemma RunSubmits(s: State, rs: Replies, stale: bool)
    requires Inv(s) && s.status.IDLE? && s.refs > 0
    ensures var (r, n) := (Run(s, rs, stale), FirstFailure(s.instrs, rs.refused, 0));
            && CarriedAll(s.instrs, r, rs, n) && r.status == (if RunOk(s, rs, stale) then RUNNING else ERROR)
            && (forall i: nat :: i in r.submitted <==> i < n && !s.instrs[i].kind.WRITE_AT_EXIT?)
            && (forall i, j :: 0 <= i < j < |r.submitted| ==> r.submitted[i] != r.submitted[j])
    ensures AllForExit(s.instrs) ==> (RunOk(s, rs, stale) <==> stale)
    ensures !AllForExit(s.instrs) ==>
              (RunOk(s, rs, stale) <==>
               forall i :: 0 <= i < |s.instrs| && i in rs.refused ==> s.instrs[i].kind.WRITE_AT_EXIT?)
  {
    var (t, n) := (s.(status := RUNNING), FirstFailure(s.instrs, rs.refused, 0));
    FirstFailureIs(s.instrs, rs.refused, 0);
    SubmittedCarries(t, rs, n);
    assert Mid(t) && Unsubmitted(t, false) by { hide WritesOk, Conserved; }
    SubmittedKeeps(t, rs, false, n);
    assert SubmittedOk(RUNNING, Submitted(t, rs, false, n).instrs, Submitted(t, rs, false, n).submitted);
    hide Mid, Submitted, FirstFailure, Carried, SameKinds;
  }

  /** A second Run submits nothing, but it stops the periodic reads: their timers end at the next tick. */
  lemma SecondRunStopsTimers(s: State, rs: Replies, stale: bool, k: nat, reply: Reply)
    requires Inv(s) && s.base && s.refs > 0 && !s.status.IDLE? && k < |s.io.timers|
    ensures !RunOk(s, rs, stale) && Run(s, rs, stale) == s.(status := ERROR)
    ensures var r := Tick(Run(s, rs, stale), k, reply);
            r.io == s.io.(timers := Without(s.io.timers, k)) && r.refs == s.refs - 1 > 0
  {
    hide WritesOk, Conserved, SubmittedOk;
  }
}
