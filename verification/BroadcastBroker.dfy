/**
 * The broadcast message broker (core/src/broadcast_broker.c) as threads that interleave: callers
 * of Broker_Publish, Broker_AddModule and Broker_RemoveModule, which take turns under
 * modules_lock, and one worker for each module.
 */
module BroadcastBroker {
  import opened Bytes
  import opened Frames

  /** A message object; its clones are the same object counted once more. */
  type Msg = nat

  /**
   * Where the worker of a module stands in module_publish_worker.  Outer and Inner are the tests of
   * the two loops; Waiting is inside Condition_Wait and Woken about to take the lock again;
   * Handling is inside Module_Receive, calling when that waits in Broker_Publish.
   */
  datatype Worker =
    | Starting | Outer | Inner | Waiting | Woken | Handling(msg: Msg, calling: bool) | Relocking | Exited

  /** Who holds mq_lock. */
  datatype Holder = Free | ByWorker | ByBroker

  /**
   * A BROKER_MODULEINFO.  id tells apart modules added under the same handle; since is the number
   * of messages published before it was added; drained counts the queue entries stop_module has
   * destroyed.
   */
  datatype Mod = Mod(id: nat, handle: Handle, since: nat, mq: seq<Msg>, quit: bool, holder: Holder,
                     worker: Worker, delivered: seq<Msg>, drained: nat)

  /** A call of Broker_Publish; missed are the modules whose VECTOR_push_back failed. */
  datatype Publication = Publication(source: Handle, msg: Msg, missed: set<nat>)

  datatype PublishPhase = Next | Locked | Cloned | Pushed | Posted

  datatype RemovePhase = Locking | QuitSet | Signalled | Joining | Draining

  /** The call that holds modules_lock; caller is the module whose handler made it, if one did. */
  datatype Activity =
    | Idle
    | Publishing(caller: Option<nat>, at: nat, phase: PublishPhase, ok: bool)
    | Removing(victim: nat, stage: RemovePhase)

  /** refs counts the references of every message, external those of callers outside the broker. */
  datatype State = State(mods: seq<Mod>, act: Activity, log: seq<Publication>,
                         refs: multiset<Msg>, external: multiset<Msg>, nextId: nat)

  const INITIAL := State([], Idle, [], multiset{}, multiset{}, 0)

  datatype Step =
    | Create(msg: Msg) | Hold(msg: Msg) | Release(msg: Msg)
    | Add(handle: Handle)
    | Publish(caller: Option<nat>, source: Handle, msg: Msg)
    | PublishOn(pushed: bool)
    | Remove(k: nat)
    | RemoveOn
    | Work(k: nat) | Wake(k: nat) | Call(k: nat)

  // ----- The worker -----

  predicate CanWork(m: Mod) {
    match m.worker
    case Starting | Woken | Relocking => m.holder == Free
    case Outer | Inner => true
    case Handling(_, calling) => !calling
    case Waiting | Exited => false
  }

  function WorkOn(m: Mod): Mod
    requires CanWork(m)
  {
    match m.worker
    case Starting => m.(holder := ByWorker, worker := Outer)
    case Woken | Relocking => m.(holder := ByWorker, worker := Inner)
    case Outer =>
      if m.quit then m.(holder := Free, worker := Exited)
      else if |m.mq| > 0 then m.(worker := Inner)
      else m.(holder := Free, worker := Waiting)
    case Inner =>
      if !m.quit && |m.mq| > 0 then m.(mq := m.mq[1..], holder := Free, worker := Handling(m.mq[0], false))
      else m.(worker := Outer)
    case Handling(msg, _) => m.(delivered := m.delivered + [msg], worker := Relocking)
    case Waiting | Exited => m
  }

  /** Condition_Post wakes a worker that waits and is lost on one that does not. */
  function Signal(m: Mod): Mod {
    if m.worker.Waiting? then m.(worker := Woken) else m
  }

  // ----- What the callers do -----

  function Last(log: seq<Publication>): Publication
    requires |log| > 0
  {
    log[|log| - 1]
  }

  predicate IsFor(p: Publication, handle: Handle) {
    p.source == NULL || handle != p.source
  }

  predicate CanPublishOn(s: State) {
    && s.act.Publishing? && |s.log| > 0
    && (s.act.phase.Next? ==>
          if s.act.at < |s.mods| then IsFor(Last(s.log), s.mods[s.act.at].handle) ==> s.mods[s.act.at].holder == Free
          else s.act.caller.Some? ==> s.act.caller.value < |s.mods| && s.mods[s.act.caller.value].worker.Handling?)
    && (!s.act.phase.Next? ==> s.act.at < |s.mods|)
  }

  /** The next step of the call of Broker_Publish; pushed says whether VECTOR_push_back succeeds. */
  function PublishNext(s: State, pushed: bool): State
    requires CanPublishOn(s)
  {
    var a := s.act;
    var p := Last(s.log);
    if a.phase.Next? && a.at >= |s.mods| then
      if a.caller == None then s.(act := Idle)
      else
        var w := s.mods[a.caller.value];
        s.(act := Idle, mods := s.mods[a.caller.value := w.(worker := Handling(w.worker.msg, false))])
    else
      var m := s.mods[a.at];
      match a.phase
      case Next =>
        if IsFor(p, m.handle) then s.(mods := s.mods[a.at := m.(holder := ByBroker)], act := a.(phase := Locked))
        else s.(act := a.(at := a.at + 1))
      case Locked => s.(refs := s.refs + multiset{p.msg}, act := a.(phase := Cloned))
      case Cloned =>
        if pushed then s.(mods := s.mods[a.at := m.(mq := m.mq + [p.msg])], act := a.(phase := Pushed))
        else s.(mods := s.mods[a.at := m.(holder := Free)], refs := s.refs - multiset{p.msg},
                log := s.log[|s.log| - 1 := p.(missed := p.missed + {m.id})],
                act := a.(at := a.at + 1, phase := Next, ok := false))
      case Pushed => s.(mods := s.mods[a.at := Signal(m)], act := a.(phase := Posted))
      case Posted => s.(mods := s.mods[a.at := m.(holder := Free)], act := a.(at := a.at + 1, phase := Next))
  }

  predicate CanRemoveOn(s: State) {
    && s.act.Removing? && s.act.victim < |s.mods|
    && (s.act.stage.Locking? ==> s.mods[s.act.victim].holder == Free)
    && (s.act.stage.Joining? ==> s.mods[s.act.victim].worker == Exited)
  }

  /** The next step of stop_module and what follows it in Broker_RemoveModule. */
  function RemoveNext(s: State): State
    requires CanRemoveOn(s)
  {
    var a := s.act;
    var m := s.mods[a.victim];
    match a.stage
    case Locking => s.(mods := s.mods[a.victim := m.(holder := ByBroker, quit := true)], act := a.(stage := QuitSet))
    case QuitSet => s.(mods := s.mods[a.victim := Signal(m)], act := a.(stage := Signalled))
    case Signalled => s.(mods := s.mods[a.victim := m.(holder := Free)], act := a.(stage := Joining))
    case Joining => s.(act := a.(stage := Draining))
    case Draining =>
      if m.drained < |m.mq| then
        s.(mods := s.mods[a.victim := m.(drained := m.drained + 1)], refs := s.refs - multiset{m.mq[m.drained]})
      else s.(mods := s.mods[..a.victim] + s.mods[a.victim + 1..], act := Idle)
  }

  /** A publisher holds a reference to its message: its own, or the one its handler was given. */
  predicate MayPublish(s: State, caller: Option<nat>, msg: Msg) {
    match caller
    case None => s.external[msg] > 0
    case Some(k) => k < |s.mods| && s.mods[k].worker.Handling? && s.mods[k].worker.calling
                    && (s.mods[k].worker.msg == msg || s.external[msg] > 0)
  }

  /** Who publishes a message it was not given by the broker keeps its reference until the call returns. */
  predicate InUse(s: State, msg: Msg) {
    && s.act.Publishing? && |s.log| > 0 && Last(s.log).msg == msg
    && !(s.act.caller.Some? && s.act.caller.value < |s.mods| && InFlight(s.mods[s.act.caller.value]) == [msg])
  }

  predicate Enabled(s: State, step: Step) {
    match step
    case Create(msg) => s.refs[msg] == 0
    case Hold(msg) => s.external[msg] > 0
    case Release(msg) => s.external[msg] > if InUse(s, msg) then 1 else 0
    case Add(_) => s.act.Idle?
    case Publish(caller, _, msg) => s.act.Idle? && MayPublish(s, caller, msg)
    case PublishOn(_) => CanPublishOn(s)
    case Remove(k) => s.act.Idle? && k < |s.mods|
    case RemoveOn => CanRemoveOn(s)
    case Work(k) => k < |s.mods| && CanWork(s.mods[k])
    case Wake(k) => k < |s.mods| && s.mods[k].worker.Waiting?
    case Call(k) => k < |s.mods| && s.mods[k].worker.Handling? && !s.mods[k].worker.calling
  }

  function Do(s: State, step: Step): State
    requires Enabled(s, step)
  {
    match step
    case Create(msg) => s.(refs := s.refs + multiset{msg}, external := s.external + multiset{msg})
    case Hold(msg) => s.(refs := s.refs + multiset{msg}, external := s.external + multiset{msg})
    case Release(msg) => s.(refs := s.refs - multiset{msg}, external := s.external - multiset{msg})
    case Add(handle) =>
      s.(mods := s.mods + [NewMod(s, handle)], nextId := s.nextId + 1)
    case Publish(caller, source, msg) =>
      s.(log := s.log + [Publication(source, msg, {})], act := Publishing(caller, 0, Next, true))
    case PublishOn(pushed) => PublishNext(s, pushed)
    case Remove(k) => s.(act := Removing(k, Locking))
    case RemoveOn => RemoveNext(s)
    case Work(k) =>
      s.(mods := s.mods[k := WorkOn(s.mods[k])],
         refs := if s.mods[k].worker.Handling? then s.refs - multiset{s.mods[k].worker.msg} else s.refs)
    case Wake(k) => s.(mods := s.mods[k := Signal(s.mods[k])])
    case Call(k) => s.(mods := s.mods[k := s.mods[k].(worker := Handling(s.mods[k].worker.msg, true))])
  }

  // ----- What a module should get -----

  /** The messages of the log, from a position on, that are meant for the module and reached it. */
  function Due(log: seq<Publication>, m: Mod): seq<Msg> {
    if |log| <= m.since then []
    else Due(log[..|log| - 1], m)
         + if IsFor(Last(log), m.handle) && m.id !in Last(log).missed then [Last(log).msg] else []
  }

  function InFlight(m: Mod): seq<Msg> {
    if m.worker.Handling? then [m.worker.msg] else []
  }

  /** Everything the module was given, in order. */
  function Got(m: Mod): seq<Msg> {
    m.delivered + InFlight(m) + m.mq
  }

  /** The call of Broker_Publish in progress has not come to the k-th module yet. */
  predicate NotYet(a: Activity, k: nat) {
    a.Publishing? && (a.at < k || (a.at == k && (a.phase.Next? || a.phase.Locked? || a.phase.Cloned?)))
  }

  /** The publications the k-th module has been offered. */
  function Seen(a: Activity, log: seq<Publication>, k: nat): seq<Publication> {
    if NotYet(a, k) && |log| > 0 then log[..|log| - 1] else log
  }

  // ----- The invariant -----

  predicate BrokerHolds(a: Activity, k: nat) {
    match a
    case Idle => false
    case Publishing(_, i, phase, _) => i == k && !phase.Next?
    case Removing(i, stage) => i == k && (stage.QuitSet? || stage.Signalled?)
  }

  predicate QuitRequested(a: Activity, k: nat) {
    a.Removing? && a.victim == k && !a.stage.Locking?
  }

  /** A post to the k-th module is still to come, from the caller that holds its lock. */
  predicate PostPending(a: Activity, k: nat) {
    (a.Publishing? && a.at == k && a.phase.Pushed?) || (a.Removing? && a.victim == k && a.stage.QuitSet?)
  }

  predicate LocksOk(a: Activity, m: Mod, k: nat) {
    && (m.holder == ByWorker <==> m.worker.Outer? || m.worker.Inner?)
    && (m.holder == ByBroker <==> BrokerHolds(a, k))
    && (m.quit <==> QuitRequested(a, k))
    && (m.worker.Exited? ==> m.quit)
    && (a.Removing? && a.victim == k && a.stage.Draining? ==> m.worker.Exited?)
    && m.drained <= |m.mq| && (m.drained > 0 ==> a.Removing? && a.victim == k && a.stage.Draining?)
  }

  /** A worker that waits has nothing to do, or is about to be woken. */
  predicate WakeOk(a: Activity, m: Mod, k: nat) {
    m.worker.Waiting? ==> (m.mq == [] && !m.quit) || PostPending(a, k)
  }

  predicate ExactAt(a: Activity, log: seq<Publication>, m: Mod, k: nat) {
    && m.since <= |Seen(a, log, k)|
    && Got(m) == Due(Seen(a, log, k), m)
    && (NotYet(a, k) && |log| > 0 ==> m.id !in Last(log).missed)
  }

  predicate ModOk(a: Activity, log: seq<Publication>, m: Mod, k: nat) {
    LocksOk(a, m, k) && WakeOk(a, m, k) && ExactAt(a, log, m, k)
  }

  /** The references a module holds: its in-flight message and what is left of its queue. */
  function Held(m: Mod): multiset<Msg>
    requires m.drained <= |m.mq|
  {
    multiset(InFlight(m)) + multiset(m.mq[m.drained..])
  }

  predicate Drains(ms: seq<Mod>) {
    forall k :: 0 <= k < |ms| ==> ms[k].drained <= |ms[k].mq|
  }

  /** How many references to a message all modules hold together. */
  function HeldByAll(ms: seq<Mod>, x: Msg): nat
    requires Drains(ms)
  {
    if ms == [] then 0 else HeldByAll(ms[..|ms| - 1], x) + Held(ms[|ms| - 1])[x]
  }

  /** The clone Broker_Publish has made and not yet queued. */
  function InHand(s: State): multiset<Msg> {
    if s.act.Publishing? && s.act.phase.Cloned? && |s.log| > 0 then multiset{Last(s.log).msg} else multiset{}
  }

  predicate CountedAt(s: State, x: Msg)
    requires Drains(s.mods)
  {
    s.refs[x] == s.external[x] + InHand(s)[x] + HeldByAll(s.mods, x)
  }

  ghost predicate Counted(s: State) {
    Drains(s.mods) && forall x :: CountedAt(s, x)
  }

  predicate ActOk(s: State) {
    match s.act
    case Idle => true
    case Publishing(caller, i, phase, ok) =>
      && |s.log| > 0 && i <= |s.mods|
      && (!phase.Next? ==> i < |s.mods| && IsFor(Last(s.log), s.mods[i].handle))
      && (ok <==> Last(s.log).missed == {})
      && MayPublish(s, caller, Last(s.log).msg)
    case Removing(i, _) => i < |s.mods|
  }

  predicate IdsOk(s: State) {
    && (forall k :: 0 <= k < |s.mods| ==> s.mods[k].id < s.nextId)
    && forall i, j :: 0 <= i < j < |s.mods| ==> s.mods[i].id != s.mods[j].id
  }

  predicate ModsOk(s: State) {
    forall k :: 0 <= k < |s.mods| ==> ModOk(s.act, s.log, s.mods[k], k)
  }

  ghost predicate Inv(s: State) {
    ActOk(s) && IdsOk(s) && ModsOk(s) && Counted(s)
  }

  // ----- The references held by all modules -----

  lemma {:induction false} HeldUpdate(ms: seq<Mod>, k: nat, m: Mod, x: Msg)
    requires k < |ms| && Drains(ms) && m.drained <= |m.mq|
    ensures Drains(ms[k := m])
    ensures HeldByAll(ms[k := m], x) + Held(ms[k])[x] == HeldByAll(ms, x) + Held(m)[x]
  {
    hide Held;
    var (n, last) := (ms[k := m], |ms| - 1);
    if k == last {
      assert n[..last] == ms[..last];
    } else {
      HeldUpdate(ms[..last], k, m, x);
      assert n[..last] == ms[..last][k := m];
    }
  }

  lemma {:induction false} HeldRemove(ms: seq<Mod>, k: nat, x: Msg)
    requires k < |ms| && Drains(ms)
    ensures Drains(ms[..k] + ms[k + 1..])
    ensures HeldByAll(ms, x) == HeldByAll(ms[..k] + ms[k + 1..], x) + Held(ms[k])[x]
  {
    hide Held;
    var (r, last) := (ms[..k] + ms[k + 1..], |ms| - 1);
    if k == last {
      assert r == ms[..last];
    } else {
      HeldRemove(ms[..last], k, x);
      assert r[..last - 1] == ms[..last][..k] + ms[..last][k + 1..];
    }
  }

  lemma HeldOne(ms: seq<Mod>, k: nat, x: Msg)
    requires k < |ms| && Drains(ms)
    ensures Held(ms[k])[x] <= HeldByAll(ms, x)
  {
    HeldRemove(ms, k, x);
  }

  // ----- Steps inside one module -----

  lemma WorkKeeps(a: Activity, log: seq<Publication>, m: Mod, k: nat)
    requires ModOk(a, log, m, k) && CanWork(m)
    ensures ModOk(a, log, WorkOn(m), k)
  {
    WorkGot(m);
    assert LocksOk(a, WorkOn(m), k) && WakeOk(a, WorkOn(m), k) by { hide ExactAt; }
    ExactKept(a, log, m, WorkOn(m), k);
    hide LocksOk, WakeOk, ExactAt;
  }

  lemma ExactKept(a: Activity, log: seq<Publication>, m: Mod, n: Mod, k: nat)
    requires ExactAt(a, log, m, k) && m.id == n.id && m.handle == n.handle && m.since == n.since && Got(m) == Got(n)
    ensures ExactAt(a, log, n, k)
  {
    DueOf(Seen(a, log, k), m, n);
    hide Due, Got, Seen;
  }

  lemma WorkGot(m: Mod)
    requires CanWork(m)
    ensures Got(WorkOn(m)) == Got(m)
  {
    if m.worker.Inner? && !m.quit && |m.mq| > 0 {
      assert m.mq == [m.mq[0]] + m.mq[1..];
    }
  }

  lemma WorkHeld(m: Mod, x: Msg)
    requires m.drained == 0 && CanWork(m)
    ensures WorkOn(m).drained == 0
    ensures Held(m)[x] == Held(WorkOn(m))[x] + if m.worker.Handling? && m.worker.msg == x then 1 else 0
  {
    assert m.mq[0..] == m.mq;
    if m.worker.Inner? && !m.quit && |m.mq| > 0 {
      assert m.mq == [m.mq[0]] + m.mq[1..] && m.mq[1..][0..] == m.mq[1..];
    }
  }

  /** What is due to a module depends on its name, its number and when it joined. */
  lemma {:induction false} DueOf(log: seq<Publication>, m: Mod, n: Mod)
    requires m.id == n.id && m.handle == n.handle && m.since == n.since
    ensures Due(log, m) == Due(log, n)
  {
    if |log| > m.since {
      DueOf(log[..|log| - 1], m, n);
    }
  }

  /** The k-th module becomes m on the way from s to r, and the count of x follows. */
  predicate Follows(s: State, k: nat, m: Mod, r: State, x: Msg)
    requires k < |s.mods| && s.mods[k].drained <= |s.mods[k].mq| && m.drained <= |m.mq|
  {
    r.refs[x] + s.external[x] + InHand(s)[x] + Held(s.mods[k])[x]
    == s.refs[x] + r.external[x] + InHand(r)[x] + Held(m)[x]
  }

  lemma CountsFollow(s: State, k: nat, m: Mod, r: State)
    requires Counted(s) && k < |s.mods| && m.drained <= |m.mq| && r.mods == s.mods[k := m]
    requires forall x :: Follows(s, k, m, r, x)
    ensures Counted(r)
  {
    hide Held, InHand;
    assert Drains(r.mods);
    forall x ensures CountedAt(r, x) {
      assert CountedAt(s, x);
      HeldUpdate(s.mods, k, m, x);
      assert Follows(s, k, m, r, x);
    }
  }

  /** A step that changes one module keeps the invariant if it keeps every part of it. */
  lemma OneModuleStep(s: State, k: nat, m: Mod, r: State)
    requires Inv(s) && k < |s.mods| && r.mods == s.mods[k := m] && r.nextId == s.nextId && ActOk(r)
    requires ModOk(r.act, r.log, m, k) && m.id == s.mods[k].id
    requires forall j :: 0 <= j < |s.mods| && j != k ==> ModOk(r.act, r.log, s.mods[j], j)
    requires m.drained <= |m.mq| && s.mods[k].drained <= |s.mods[k].mq| && forall x :: Follows(s, k, m, r, x)
    ensures Inv(r)
  {
    hide ModOk, ActOk, Follows, Drains;
    CountsFollow(s, k, m, r);
  }

  lemma LocalStep(s: State, k: nat, m: Mod, r: State)
    requires Inv(s) && k < |s.mods| && r == s.(mods := s.mods[k := m], refs := r.refs)
    requires ModOk(s.act, s.log, m, k) && m.id == s.mods[k].id && m.handle == s.mods[k].handle
    requires s.mods[k].worker.Handling? && s.mods[k].worker.calling ==> m.worker == s.mods[k].worker
    requires m.drained <= |m.mq| && s.mods[k].drained <= |s.mods[k].mq| && forall x :: Follows(s, k, m, r, x)
    ensures Inv(r)
  {
    assert ActOk(r) by { hide ModOk, Follows, Counted, IdsOk, ModsOk; }
    hide ModOk, ActOk, IdsOk, Follows, Counted;
    OneModuleStep(s, k, m, r);
  }

  lemma WorkFollows(s: State, k: nat, x: Msg)
    requires Counted(s) && Enabled(s, Work(k)) && s.mods[k].drained == 0
    ensures WorkOn(s.mods[k]).drained == 0 && Follows(s, k, WorkOn(s.mods[k]), Do(s, Work(k)), x)
  {
    WorkHeld(s.mods[k], x);
    HeldOne(s.mods, k, x);
    assert CountedAt(s, x);
    hide WorkOn, HeldByAll, Drains, Counted;
  }

  lemma WorkStep(s: State, k: nat)
    requires Inv(s) && Enabled(s, Work(k))
    ensures Inv(Do(s, Work(k)))
  {
    var m := s.mods[k];
    WorkReady(s, k);
    WorkKeeps(s.act, s.log, m, k);
    WorkIdentity(m);
    hide ModOk, WorkOn, CanWork, Follows, ModsOk, IdsOk, ActOk;
    forall x ensures Follows(s, k, WorkOn(m), Do(s, Work(k)), x) {
      WorkFollows(s, k, x);
    }
    hide Counted;
    LocalStep(s, k, WorkOn(m), Do(s, Work(k)));
  }

  lemma WorkReady(s: State, k: nat)
    requires Inv(s) && Enabled(s, Work(k))
    ensures ModOk(s.act, s.log, s.mods[k], k) && s.mods[k].drained == 0
  {
    assert ModOk(s.act, s.log, s.mods[k], k);
    hide ExactAt, WakeOk, Counted, IdsOk;
  }

  lemma WorkIdentity(m: Mod)
    requires CanWork(m)
    ensures WorkOn(m).id == m.id && WorkOn(m).handle == m.handle && WorkOn(m).drained == m.drained
  {
  }

  ghost predicate WokenOrCalling(m: Mod, n: Mod) {
    n == Signal(m) || (m.worker.Handling? && n == m.(worker := Handling(m.worker.msg, true)))
  }

  lemma WokenOrCallingHolds(m: Mod, n: Mod)
    requires WokenOrCalling(m, n) && m.drained <= |m.mq|
    ensures n.id == m.id && n.handle == m.handle && n.since == m.since && n.drained == m.drained && n.mq == m.mq
    ensures Got(n) == Got(m) && Held(n) == Held(m)
  {
  }

  lemma WokenOrCallingOk(a: Activity, m: Mod, n: Mod, k: nat)
    requires WokenOrCalling(m, n) && LocksOk(a, m, k) && WakeOk(a, m, k)
    ensures LocksOk(a, n, k) && WakeOk(a, n, k)
  {
  }

  lemma WokenOrCallingKeeps(a: Activity, log: seq<Publication>, m: Mod, n: Mod, k: nat)
    requires ModOk(a, log, m, k) && WokenOrCalling(m, n)
    ensures ModOk(a, log, n, k)
    ensures m.drained <= |m.mq| && n.id == m.id && n.handle == m.handle && n.drained == m.drained && n.mq == m.mq
    ensures Held(n) == Held(m)
  {
    WokenOrCallingOk(a, m, n, k);
    WokenOrCallingHolds(m, n);
    hide LocksOk, WakeOk, Held, Got, WokenOrCalling;
    ExactKept(a, log, m, n, k);
  }

  lemma WokenOrCallingStep(s: State, k: nat, n: Mod)
    requires Inv(s) && k < |s.mods| && WokenOrCalling(s.mods[k], n)
    requires s.mods[k].worker.Handling? && s.mods[k].worker.calling ==> n.worker == s.mods[k].worker
    ensures Inv(s.(mods := s.mods[k := n]))
  {
    assert ModOk(s.act, s.log, s.mods[k], k);
    hide ModOk, WokenOrCalling, ActOk, IdsOk, Held, HeldByAll, Drains, ModsOk, Counted;
    WokenOrCallingKeeps(s.act, s.log, s.mods[k], n, k);
    LocalStep(s, k, n, s.(mods := s.mods[k := n]));
  }

  lemma WakeOrCallStep(s: State, step: Step)
    requires Inv(s) && (step.Wake? || step.Call?) && Enabled(s, step)
    ensures Inv(Do(s, step))
  {
    hide Inv;
    var m := s.mods[step.k];
    WokenOrCallingStep(s, step.k, if step.Wake? then Signal(m) else m.(worker := Handling(m.worker.msg, true)));
  }

  // ----- Steps of Broker_Publish -----

  lemma PublishOthers(a: Activity, b: Activity, log: seq<Publication>, m: Mod, j: nat)
    requires a.Publishing? && b.Publishing? && j != a.at && (b.at == a.at || (b.at == a.at + 1 && b.phase.Next?))
    requires ModOk(a, log, m, j)
    ensures ModOk(b, log, m, j)
  {
    hide Due, Got;
  }

  lemma PublishLocks(s: State, pushed: bool)
    requires CanPublishOn(s) && s.act.at < |s.mods|
    requires LocksOk(s.act, s.mods[s.act.at], s.act.at) && WakeOk(s.act, s.mods[s.act.at], s.act.at)
    ensures var (i, r) := (s.act.at, PublishNext(s, pushed));
            LocksOk(r.act, r.mods[i], i) && WakeOk(r.act, r.mods[i], i)
  {
  }

  lemma PublishGot(s: State, pushed: bool)
    requires CanPublishOn(s) && s.act.at < |s.mods|
    ensures var (i, m) := (s.act.at, s.mods[s.act.at]);
            var n := PublishNext(s, pushed).mods[i];
            && n.id == m.id && n.handle == m.handle && n.since == m.since && n.drained == m.drained
            && Got(n) == Got(m) + if s.act.phase.Cloned? && pushed then [Last(s.log).msg] else []
  {
  }

  predicate SameModule(m: Mod, n: Mod) {
    n.id == m.id && n.handle == m.handle && n.since == m.since
  }

  lemma ExactStays(a: Activity, b: Activity, log: seq<Publication>, m: Mod, n: Mod, k: nat)
    requires ExactAt(a, log, m, k) && NotYet(a, k) == NotYet(b, k) && SameModule(m, n) && Got(n) == Got(m)
    ensures ExactAt(b, log, n, k)
  {
    DueOf(Seen(a, log, k), m, n);
    hide Due, Got;
  }

  /** The publication in progress becomes due with the step that offers it to the module. */
  lemma ExactOnceSeen(a: Activity, b: Activity, log: seq<Publication>, m: Mod, n: Mod, k: nat)
    requires ExactAt(a, log, m, k) && NotYet(a, k) && !NotYet(b, k) && SameModule(m, n) && |log| > 0
    requires Got(n) == Got(m) + if IsFor(Last(log), m.handle) then [Last(log).msg] else []
    ensures ExactAt(b, log, n, k)
  {
    DueOf(log, m, n);
    hide Got;
  }

  /** A failed push takes the publication out of what is due to that module. */
  lemma ExactOnceMissed(a: Activity, b: Activity, log: seq<Publication>, m: Mod, n: Mod, k: nat)
    requires ExactAt(a, log, m, k) && NotYet(a, k) && !NotYet(b, k) && SameModule(m, n) && Got(n) == Got(m)
    requires |log| > 0
    ensures var p := Last(log);
            ExactAt(b, log[|log| - 1 := p.(missed := p.missed + {m.id})], n, k)
  {
    var p := Last(log);
    var log2 := log[|log| - 1 := p.(missed := p.missed + {m.id})];
    assert log2[..|log| - 1] == log[..|log| - 1];
    DueOf(log2, m, n);
    hide Got;
  }

  lemma PublishExact(s: State, pushed: bool)
    requires CanPublishOn(s) && s.act.at < |s.mods| && ExactAt(s.act, s.log, s.mods[s.act.at], s.act.at)
    requires !s.act.phase.Next? ==> IsFor(Last(s.log), s.mods[s.act.at].handle)
    ensures var (i, r) := (s.act.at, PublishNext(s, pushed)); ExactAt(r.act, r.log, r.mods[i], i)
  {
    var (i, r) := (s.act.at, PublishNext(s, pushed));
    var (m, n) := (s.mods[i], r.mods[i]);
    PublishGot(s, pushed);
    hide ExactAt, Got;
    if s.act.phase.Cloned? && !pushed {
      assert Got(m) + [] == Got(m);
      ExactOnceMissed(s.act, r.act, s.log, m, n, i);
    } else if NotYet(s.act, i) && !NotYet(r.act, i) {
      ExactOnceSeen(s.act, r.act, s.log, m, n, i);
    } else {
      assert Got(m) + [] == Got(m);
      ExactStays(s.act, r.act, s.log, m, n, i);
    }
  }

  /** A push that failed for one module makes no difference to what is due to another. */
  lemma MissedByOne(log: seq<Publication>, m: Mod, id: nat)
    requires |log| > 0 && m.id != id
    ensures var p := Last(log);
            Due(log[|log| - 1 := p.(missed := p.missed + {id})], m) == Due(log, m)
  {
    var p := Last(log);
    assert log[|log| - 1 := p.(missed := p.missed + {id})][..|log| - 1] == log[..|log| - 1];
  }

  lemma FailedPushOthers(a: Activity, log: seq<Publication>, m: Mod, j: nat, id: nat)
    requires a.Publishing? && a.phase.Cloned? && j != a.at && |log| > 0 && m.id != id && ModOk(a, log, m, j)
    ensures var p := Last(log);
            ModOk(a.(at := a.at + 1, phase := Next, ok := false), log[|log| - 1 := p.(missed := p.missed + {id})], m, j)
  {
    var p := Last(log);
    var log2 := log[|log| - 1 := p.(missed := p.missed + {id})];
    assert log2[..|log| - 1] == log[..|log| - 1];
    MissedByOne(log, m, id);
    hide Due, Got;
  }

  lemma PublishActOk(s: State, pushed: bool)
    requires CanPublishOn(s) && ActOk(s) && s.act.at < |s.mods|
    requires forall k :: 0 <= k < |s.mods| ==> LocksOk(s.act, s.mods[k], k)
    ensures ActOk(PublishNext(s, pushed))
  {
    PublishCaller(s, pushed);
    hide MayPublish, LocksOk;
  }

  /** The module whose handler publishes stays where it is until the call returns. */
  lemma PublishCaller(s: State, pushed: bool)
    requires CanPublishOn(s) && s.act.at < |s.mods| && MayPublish(s, s.act.caller, Last(s.log).msg)
    requires forall k :: 0 <= k < |s.mods| ==> LocksOk(s.act, s.mods[k], k)
    ensures MayPublish(PublishNext(s, pushed), s.act.caller, Last(s.log).msg)
  {
  }

  lemma HeldPushed(m: Mod, msg: Msg, x: Msg)
    requires m.drained == 0
    ensures Held(m.(mq := m.mq + [msg]))[x] == Held(m)[x] + if msg == x then 1 else 0
  {
    assert m.mq[0..] == m.mq;
    assert (m.mq + [msg])[0..] == m.mq + [msg];
  }

  lemma PublishTarget(s: State, pushed: bool)
    requires CanPublishOn(s) && s.act.at < |s.mods|
    ensures var (m, r) := (s.mods[s.act.at], PublishNext(s, pushed));
            var n := r.mods[s.act.at];
            && r.mods == s.mods[s.act.at := n] && n.drained == m.drained
            && if s.act.phase.Cloned? && pushed then n == m.(mq := m.mq + [Last(s.log).msg])
               else n.mq == m.mq && InFlight(n) == InFlight(m)
  {
  }

  lemma PublishHeld(s: State, pushed: bool, x: Msg)
    requires CanPublishOn(s) && s.act.at < |s.mods| && s.mods[s.act.at].drained == 0
    ensures var (i, r) := (s.act.at, PublishNext(s, pushed));
            && r.mods[i].drained == 0 && r.mods == s.mods[i := r.mods[i]]
            && Held(r.mods[i])[x] == Held(s.mods[i])[x]
                 + if s.act.phase.Cloned? && pushed && Last(s.log).msg == x then 1 else 0
  {
    PublishTarget(s, pushed);
    HeldPushed(s.mods[s.act.at], Last(s.log).msg, x);
    hide PublishNext, CanPublishOn, InFlight;
  }

  lemma PublishRefs(s: State, pushed: bool, x: Msg)
    requires CanPublishOn(s) && s.act.at < |s.mods| && (s.act.phase.Cloned? ==> s.refs[Last(s.log).msg] > 0)
    ensures var r := PublishNext(s, pushed);
            && r.external == s.external && r.nextId == s.nextId
            && r.refs[x] + InHand(s)[x] == s.refs[x] + InHand(r)[x]
                 + if s.act.phase.Cloned? && pushed && Last(s.log).msg == x then 1 else 0
  {
  }

  lemma PublishFollows(s: State, pushed: bool, x: Msg)
    requires CanPublishOn(s) && s.act.at < |s.mods| && s.mods[s.act.at].drained == 0 && Counted(s)
    ensures var (i, r) := (s.act.at, PublishNext(s, pushed));
            r.mods[i].drained == 0 && Follows(s, i, r.mods[i], r, x)
  {
    PublishHeld(s, pushed, x);
    assert CountedAt(s, Last(s.log).msg);
    PublishRefs(s, pushed, x);
    hide HeldByAll, Drains, Counted, PublishNext, Held, InHand;
  }

  lemma PublishMoves(s: State, pushed: bool)
    requires CanPublishOn(s) && s.act.at < |s.mods|
    ensures var (a, r, p) := (s.act, PublishNext(s, pushed), Last(s.log));
            if a.phase.Cloned? && !pushed then
              && r.act == a.(at := a.at + 1, phase := Next, ok := false)
              && r.log == s.log[|s.log| - 1 := p.(missed := p.missed + {s.mods[a.at].id})]
            else
              && r.log == s.log && r.act.Publishing?
              && (r.act.at == a.at || (r.act.at == a.at + 1 && r.act.phase.Next?))
  {
  }

  lemma PublishOthersKeep(s: State, pushed: bool, j: nat)
    requires Inv(s) && CanPublishOn(s) && s.act.at < |s.mods| && j < |s.mods| && j != s.act.at
    ensures var r := PublishNext(s, pushed); ModOk(r.act, r.log, s.mods[j], j)
  {
    assert ModOk(s.act, s.log, s.mods[j], j);
    assert s.mods[j].id != s.mods[s.act.at].id && |s.log| > 0;
    PublishMoves(s, pushed);
    hide ModOk, Counted, ModsOk, IdsOk, ActOk, PublishNext;
    if s.act.phase.Cloned? && !pushed {
      FailedPushOthers(s.act, s.log, s.mods[j], j, s.mods[s.act.at].id);
    } else {
      PublishOthers(s.act, PublishNext(s, pushed).act, s.log, s.mods[j], j);
    }
  }

  lemma PublishReady(s: State, k: nat)
    requires Inv(s) && k < |s.mods| && !s.act.Removing?
    ensures LocksOk(s.act, s.mods[k], k) && WakeOk(s.act, s.mods[k], k) && ExactAt(s.act, s.log, s.mods[k], k)
    ensures s.mods[k].drained == 0
  {
    assert ModOk(s.act, s.log, s.mods[k], k);
    hide Counted, IdsOk, ActOk, WakeOk, ExactAt;
  }

  lemma PublishStep(s: State, pushed: bool)
    requires Inv(s) && CanPublishOn(s) && s.act.at < |s.mods|
    ensures Inv(PublishNext(s, pushed))
  {
    var (i, r) := (s.act.at, PublishNext(s, pushed));
    forall k | 0 <= k < |s.mods| ensures LocksOk(s.act, s.mods[k], k) {
      PublishReady(s, k);
    }
    PublishReady(s, i);
    PublishActOk(s, pushed);
    hide LocksOk, WakeOk, ExactAt;
    PublishLocks(s, pushed);
    PublishExact(s, pushed);
    PublishGot(s, pushed);
    PublishHeld(s, pushed, 0);
    forall x ensures Follows(s, i, r.mods[i], r, x) {
      PublishFollows(s, pushed, x);
    }
    forall j | 0 <= j < |s.mods| && j != i ensures ModOk(r.act, r.log, s.mods[j], j) {
      PublishOthersKeep(s, pushed, j);
    }
    OneModuleStep(s, i, r.mods[i], r);
  }

  // ----- Steps that start and end a call -----

  predicate Uninvolved(a: Activity, k: nat) {
    a.Idle? || (a.Removing? && (a.victim != k || a.stage.Locking?)) || (a.Publishing? && a.at > k)
  }

  lemma UninvolvedKeep(a: Activity, b: Activity, log: seq<Publication>, m: Mod, j: nat, k: nat)
    requires Uninvolved(a, j) && Uninvolved(b, k) && ModOk(a, log, m, j)
    ensures ModOk(b, log, m, k)
  {
    hide Due, Got;
  }

  predicate SameBalance(s: State, r: State, x: Msg) {
    r.refs[x] + s.external[x] + InHand(s)[x] == s.refs[x] + r.external[x] + InHand(r)[x]
  }

  lemma SameModsStep(s: State, r: State)
    requires Inv(s) && r.mods == s.mods && r.nextId == s.nextId && ActOk(r)
    requires forall j :: 0 <= j < |s.mods| ==> ModOk(r.act, r.log, s.mods[j], j)
    requires forall x :: SameBalance(s, r, x)
    ensures Inv(r)
  {
    hide ModOk, ActOk, Held, InHand;
    forall x ensures CountedAt(r, x) {
      assert CountedAt(s, x) && SameBalance(s, r, x);
    }
  }

  lemma MessageAct(s: State, step: Step)
    requires ActOk(s) && Enabled(s, step) && (step.Create? || step.Hold? || step.Release?)
    ensures ActOk(Do(s, step))
  {
  }

  lemma MessageBalance(s: State, step: Step, x: Msg)
    requires ExternalCounted(s, x) && Enabled(s, step) && (step.Create? || step.Hold? || step.Release?)
    ensures SameBalance(s, Do(s, step), x)
  {
  }

  /** An external holder has its reference in the count. */
  predicate ExternalCounted(s: State, x: Msg) {
    s.refs[x] >= s.external[x]
  }

  lemma MessageStep(s: State, step: Step)
    requires Inv(s) && Enabled(s, step) && (step.Create? || step.Hold? || step.Release?)
    ensures Inv(Do(s, step))
  {
    var r := Do(s, step);
    MessageAct(s, step);
    hide ActOk, ModOk, SameBalance;
    forall x ensures SameBalance(s, r, x) {
      assert CountedAt(s, x);
      hide HeldByAll, Held, ModsOk, IdsOk, InHand;
      MessageBalance(s, step, x);
    }
    hide Counted;
    SameModsStep(s, r);
  }

  lemma PublishBegins(s: State, step: Step)
    requires Inv(s) && step.Publish? && Enabled(s, step)
    ensures Inv(Do(s, step))
  {
    var r := Do(s, step);
    assert ActOk(r) by { hide ModsOk, Counted, IdsOk; }
    assert r.log[..|r.log| - 1] == s.log;
    forall j | 0 <= j < |s.mods| ensures ModOk(r.act, r.log, s.mods[j], j) {
      assert ModOk(s.act, s.log, s.mods[j], j);
      hide Due, Got, IdsOk, Counted;
    }
    hide ActOk, ModOk, Counted;
    SameModsStep(s, r);
  }

  lemma PublishEnds(s: State, pushed: bool)
    requires Inv(s) && CanPublishOn(s) && s.act.at >= |s.mods|
    ensures Inv(PublishNext(s, pushed))
  {
    var t := s.(act := Idle);
    forall j | 0 <= j < |s.mods| ensures ModOk(Idle, s.log, s.mods[j], j) {
      assert ModOk(s.act, s.log, s.mods[j], j);
      UninvolvedKeep(s.act, Idle, s.log, s.mods[j], j, j);
      hide ModOk;
    }
    hide ModOk, Counted;
    SameModsStep(s, t);
    if s.act.caller.Some? {
      HandlerResumes(t, s.act.caller.value);
    }
  }

  lemma HandlerResumes(s: State, k: nat)
    requires Inv(s) && s.act.Idle? && k < |s.mods| && s.mods[k].worker.Handling?
    ensures Inv(s.(mods := s.mods[k := s.mods[k].(worker := Handling(s.mods[k].worker.msg, false))]))
  {
    var m := s.mods[k];
    var n := m.(worker := Handling(m.worker.msg, false));
    assert ModOk(s.act, s.log, m, k);
    assert Got(n) == Got(m) && Held(n) == Held(m);
    ExactKept(s.act, s.log, m, n, k);
    assert LocksOk(s.act, n, k) && WakeOk(s.act, n, k) by { hide ExactAt; }
    hide ModsOk, Counted, LocksOk, WakeOk, ExactAt, Held, Got, HeldByAll, IdsOk, Drains;
    OneModuleStep(s, k, n, s.(mods := s.mods[k := n]));
  }

  /** A BROKER_MODULEINFO as Broker_AddModule makes it. */
  function NewMod(s: State, handle: Handle): Mod {
    Mod(s.nextId, handle, |s.log|, [], false, Free, Starting, [], 0)
  }

  lemma NewModOk(s: State, handle: Handle)
    ensures ModOk(Idle, s.log, NewMod(s, handle), |s.mods|) && Held(NewMod(s, handle)) == multiset{}
  {
    assert Due(s.log, NewMod(s, handle)) == [];
  }

  lemma HeldAppend(ms: seq<Mod>, m: Mod, x: Msg)
    requires Drains(ms) && m.drained <= |m.mq|
    ensures Drains(ms + [m]) && HeldByAll(ms + [m], x) == HeldByAll(ms, x) + Held(m)[x]
  {
    assert (ms + [m])[..|ms|] == ms;
    hide Held;
  }

  lemma AddedMods(s: State, m: Mod)
    requires s.act.Idle? && ModsOk(s) && IdsOk(s) && ModOk(Idle, s.log, m, |s.mods|) && m.id == s.nextId
    ensures var r := s.(mods := s.mods + [m], nextId := s.nextId + 1); ModsOk(r) && IdsOk(r)
  {
    hide ModOk;
  }

  lemma AddedCounts(s: State, m: Mod)
    requires Counted(s) && m.drained <= |m.mq| && Held(m) == multiset{}
    ensures Counted(s.(mods := s.mods + [m], nextId := s.nextId + 1))
  {
    var r := s.(mods := s.mods + [m], nextId := s.nextId + 1);
    HeldAppend(s.mods, m, 0);
    assert InHand(r) == InHand(s);
    hide Drains, InHand, HeldByAll, Held;
    forall x ensures CountedAt(r, x) {
      assert CountedAt(s, x);
      HeldAppend(s.mods, m, x);
    }
  }

  lemma AddStep(s: State, handle: Handle)
    requires Inv(s) && s.act.Idle?
    ensures Inv(Do(s, Add(handle)))
  {
    NewModOk(s, handle);
    hide ModsOk, IdsOk, ModOk, Held, Counted;
    AddedMods(s, NewMod(s, handle));
    AddedCounts(s, NewMod(s, handle));
  }

  lemma RemoveBegins(s: State, k: nat)
    requires Inv(s) && s.act.Idle? && k < |s.mods|
    ensures Inv(Do(s, Remove(k)))
  {
    var r := Do(s, Remove(k));
    forall j | 0 <= j < |s.mods| ensures ModOk(r.act, s.log, s.mods[j], j) {
      assert ModOk(s.act, s.log, s.mods[j], j);
      UninvolvedKeep(s.act, r.act, s.log, s.mods[j], j, j);
      hide ModOk;
    }
    hide ModOk, Counted;
    SameModsStep(s, r);
  }

  // ----- Steps of Broker_RemoveModule -----

  /** The call has come to the point where the module leaves the list. */
  predicate Leaving(s: State) {
    CanRemoveOn(s) && s.act.stage.Draining? && s.mods[s.act.victim].drained >= |s.mods[s.act.victim].mq|
  }

  lemma RemoveTarget(s: State)
    requires CanRemoveOn(s) && !Leaving(s)
    ensures var (m, r) := (s.mods[s.act.victim], RemoveNext(s));
            var n := r.mods[s.act.victim];
            && r.mods == s.mods[s.act.victim := n] && n.id == m.id && n.handle == m.handle && n.since == m.since
            && n.mq == m.mq && InFlight(n) == InFlight(m) && Got(n) == Got(m)
            && n.drained == m.drained + (if s.act.stage.Draining? then 1 else 0)
            && r.act.Removing? && r.act.victim == s.act.victim
  {
  }

  lemma RemoveLocks(s: State)
    requires CanRemoveOn(s) && !Leaving(s)
    requires LocksOk(s.act, s.mods[s.act.victim], s.act.victim) && WakeOk(s.act, s.mods[s.act.victim], s.act.victim)
    ensures var (i, r) := (s.act.victim, RemoveNext(s));
            LocksOk(r.act, r.mods[i], i) && WakeOk(r.act, r.mods[i], i)
  {
  }

  lemma DrainedHeld(m: Mod, x: Msg)
    requires m.drained < |m.mq|
    ensures Held(m)[x] == Held(m.(drained := m.drained + 1))[x] + if m.mq[m.drained] == x then 1 else 0
  {
    assert m.mq[m.drained..] == [m.mq[m.drained]] + m.mq[m.drained + 1..];
  }

  lemma RemoveHeld(s: State, x: Msg)
    requires CanRemoveOn(s) && !Leaving(s) && s.mods[s.act.victim].drained <= |s.mods[s.act.victim].mq|
    ensures var (m, r) := (s.mods[s.act.victim], RemoveNext(s));
            var n := r.mods[s.act.victim];
            && n.drained <= |n.mq| && r.external == s.external && InHand(r) == InHand(s)
            && var gone := s.act.stage.Draining? && m.mq[m.drained] == x;
               && Held(m)[x] == Held(n)[x] + (if gone then 1 else 0)
               && (s.refs[x] >= Held(m)[x] ==> s.refs[x] == r.refs[x] + (if gone then 1 else 0))
  {
    var (m, n) := (s.mods[s.act.victim], RemoveNext(s).mods[s.act.victim]);
    RemoveTarget(s);
    if s.act.stage.Draining? {
      DrainedHeld(m, x);
      assert n == m.(drained := m.drained + 1);
    } else {
      assert Held(n) == Held(m);
    }
    hide Held;
  }

  lemma RemoveFollows(s: State, x: Msg)
    requires CanRemoveOn(s) && !Leaving(s) && Counted(s)
    ensures var (i, r) := (s.act.victim, RemoveNext(s));
            s.mods[i].drained <= |s.mods[i].mq| && r.mods[i].drained <= |s.mods[i].mq| == |r.mods[i].mq|
            && Follows(s, i, r.mods[i], r, x)
  {
    assert CountedAt(s, x);
    HeldOne(s.mods, s.act.victim, x);
    RemoveTarget(s);
    RemoveHeld(s, x);
    hide Held, HeldByAll, Counted, RemoveNext, InHand, Got, Leaving, InFlight;
  }

  lemma RemoveStep(s: State)
    requires Inv(s) && CanRemoveOn(s) && !Leaving(s)
    ensures Inv(RemoveNext(s))
  {
    var (i, r) := (s.act.victim, RemoveNext(s));
    assert ModOk(s.act, s.log, s.mods[i], i);
    RemoveTarget(s);
    RemoveLocks(s);
    assert ExactAt(r.act, s.log, s.mods[i], i) by { hide Due, Got; }
    ExactKept(r.act, s.log, s.mods[i], r.mods[i], i);
    hide LocksOk, WakeOk, ExactAt;
    forall x ensures s.mods[i].drained <= |s.mods[i].mq| && r.mods[i].drained <= |r.mods[i].mq|
                     && Follows(s, i, r.mods[i], r, x) {
      RemoveFollows(s, x);
    }
    forall j | 0 <= j < |s.mods| && j != i ensures ModOk(r.act, r.log, s.mods[j], j) {
      assert ModOk(s.act, s.log, s.mods[j], j);
      hide ModOk;
      UninvolvedKeep(s.act, r.act, s.log, s.mods[j], j, j);
    }
    hide ModOk, Counted;
    OneModuleStep(s, i, r.mods[i], r);
  }

  /** Every clone the module held has been released by the time it leaves the list. */
  lemma LeavingCounts(s: State)
    requires Counted(s) && Leaving(s)
    requires var m := s.mods[s.act.victim]; m.worker.Exited? && m.drained == |m.mq|
    ensures Counted(RemoveNext(s))
  {
    var (i, r) := (s.act.victim, RemoveNext(s));
    assert Held(s.mods[i]) == multiset{};
    assert r == s.(mods := s.mods[..i] + s.mods[i + 1..], act := Idle) && InHand(r) == InHand(s);
    hide Held, HeldByAll, RemoveNext, Leaving, InHand, Drains;
    HeldRemove(s.mods, i, 0);
    forall x ensures CountedAt(r, x) {
      assert CountedAt(s, x);
      HeldRemove(s.mods, i, x);
    }
  }

  lemma LeavingIds(s: State, i: nat, r: State)
    requires IdsOk(s) && i < |s.mods| && r.mods == s.mods[..i] + s.mods[i + 1..] && r.nextId == s.nextId
    ensures IdsOk(r)
  {
    forall j | 0 <= j < |r.mods| ensures r.mods[j] == s.mods[if j < i then j else j + 1] {}
  }

  lemma LeavingMods(s: State)
    requires ModsOk(s) && IdsOk(s) && Leaving(s)
    ensures ModsOk(RemoveNext(s)) && IdsOk(RemoveNext(s))
  {
    var (i, r) := (s.act.victim, RemoveNext(s));
    assert r.mods == s.mods[..i] + s.mods[i + 1..] && r.act == Idle && r.log == s.log && r.nextId == s.nextId;
    hide RemoveNext, ModOk;
    LeavingIds(s, i, r);
    hide IdsOk;
    forall j | 0 <= j < |r.mods| ensures ModOk(Idle, s.log, r.mods[j], j) {
      var k := if j < i then j else j + 1;
      assert ModOk(s.act, s.log, s.mods[k], k);
      UninvolvedKeep(s.act, Idle, s.log, s.mods[k], k, j);
    }
  }

  lemma RemoveEnds(s: State)
    requires Inv(s) && Leaving(s)
    ensures Inv(RemoveNext(s))
  {
    assert ModOk(s.act, s.log, s.mods[s.act.victim], s.act.victim);
    LeavingMods(s);
    hide WakeOk, ExactAt, ModsOk, IdsOk, Counted;
    LeavingCounts(s);
  }

  // ----- Every run -----

  /** Every step of every thread keeps the invariant. */
  lemma StepKeeps(s: State, step: Step)
    requires Inv(s) && Enabled(s, step)
    ensures Inv(Do(s, step))
  {
    hide Inv;
    match step
    case Create(_) | Hold(_) | Release(_) => MessageStep(s, step);
    case Add(handle) => AddStep(s, handle);
    case Publish(_, _, _) => PublishBegins(s, step);
    case PublishOn(pushed) => if s.act.at < |s.mods| { PublishStep(s, pushed); } else { PublishEnds(s, pushed); }
    case Remove(k) => RemoveBegins(s, k);
    case RemoveOn => if Leaving(s) { RemoveEnds(s); } else { RemoveStep(s); }
    case Work(k) => WorkStep(s, k);
    case Wake(_) | Call(_) => WakeOrCallStep(s, step);
  }

  /** Interleavings: any thread that can make a step may be the next one. */
  predicate CanRun(s: State, steps: seq<Step>)
    decreases |steps|
  {
    steps == [] || (Enabled(s, steps[0]) && CanRun(Do(s, steps[0]), steps[1..]))
  }

  function Run(s: State, steps: seq<Step>): State
    requires CanRun(s, steps)
    decreases |steps|
  {
    if steps == [] then s else Run(Do(s, steps[0]), steps[1..])
  }

  lemma {:induction false} RunKeeps(s: State, steps: seq<Step>)
    requires Inv(s) && CanRun(s, steps)
    ensures Inv(Run(s, steps))
    decreases |steps|
  {
    if steps != [] {
      StepKeeps(s, steps[0]);
      RunKeeps(Do(s, steps[0]), steps[1..]);
    }
  }

  lemma InitialOk()
    ensures Inv(INITIAL)
  {
    forall x ensures Drains(INITIAL.mods) && CountedAt(INITIAL, x) {}
  }

  // ----- What the invariant means for a run of the broker -----

  /** The messages published from a position on, except those the module published itself. */
  function PublishedFor(log: seq<Publication>, since: nat, handle: Handle): seq<Msg> {
    if |log| <= since then []
    else PublishedFor(log[..|log| - 1], since, handle) + if IsFor(Last(log), handle) then [Last(log).msg] else []
  }

  lemma {:induction false} DueIsPublished(log: seq<Publication>, m: Mod)
    requires forall i :: m.since <= i < |log| ==> m.id !in log[i].missed
    ensures Due(log, m) == PublishedFor(log, m.since, m.handle)
  {
    if |log| > m.since {
      assert Last(log) == log[|log| - 1];
      DueIsPublished(log[..|log| - 1], m);
    }
  }

  /**
   * In every interleaving, what a module was handed, is handling and has queued is, in order, what
   * was published for it since it joined and could be pushed; with no failed push, all of it.
   */
  lemma DeliveryIsExact(steps: seq<Step>, k: nat)
    requires CanRun(INITIAL, steps) && k < |Run(INITIAL, steps).mods|
    ensures var s := Run(INITIAL, steps);
            var (m, seen) := (s.mods[k], Seen(s.act, s.log, k));
            && Got(m) == Due(seen, m)
            && m.delivered <= Due(seen, m)
            && ((forall i :: m.since <= i < |seen| ==> m.id !in seen[i].missed) ==>
                  Got(m) == PublishedFor(seen, m.since, m.handle))
  {
    InitialOk();
    RunKeeps(INITIAL, steps);
    var s := Run(INITIAL, steps);
    assert ModOk(s.act, s.log, s.mods[k], k);
    hide Inv, LocksOk, WakeOk, Due, Run, CanRun;
    var seen := Seen(s.act, s.log, k);
    if forall i :: s.mods[k].since <= i < |seen| ==> s.mods[k].id !in seen[i].missed {
      DueIsPublished(seen, s.mods[k]);
    }
  }

  /** A worker blocked in Condition_Wait has an empty queue and was not told to quit, or a post is coming. */
  lemma NoLostWakeup(steps: seq<Step>, k: nat)
    requires CanRun(INITIAL, steps) && k < |Run(INITIAL, steps).mods|
    ensures var s := Run(INITIAL, steps);
            s.mods[k].worker.Waiting? ==>
              (s.mods[k].mq == [] && !s.mods[k].quit) || (PostPending(s.act, k) && s.mods[k].holder == ByBroker)
  {
    InitialOk();
    RunKeeps(INITIAL, steps);
    var s := Run(INITIAL, steps);
    assert ModOk(s.act, s.log, s.mods[k], k);
    hide Inv, ExactAt, Run, CanRun;
  }

  /** A module's lock is never held by its worker and a caller at once, and the worker runs unlocked handlers. */
  lemma LocksAreExclusive(steps: seq<Step>, k: nat)
    requires CanRun(INITIAL, steps) && k < |Run(INITIAL, steps).mods|
    ensures var s := Run(INITIAL, steps);
            && (s.mods[k].worker.Outer? || s.mods[k].worker.Inner? ==> !BrokerHolds(s.act, k))
            && (s.mods[k].worker.Exited? ==> QuitRequested(s.act, k))
  {
    InitialOk();
    RunKeeps(INITIAL, steps);
    var s := Run(INITIAL, steps);
    assert ModOk(s.act, s.log, s.mods[k], k);
    hide Inv, ExactAt, WakeOk, Run, CanRun;
  }

  /**
   * A message's reference count is what its external holders, the clone in hand, the queues and the
   * deliveries in flight add up to, so once every module is removed only external references remain.
   */
  lemma ClonesAreCounted(steps: seq<Step>, x: Msg)
    requires CanRun(INITIAL, steps)
    ensures var s := Run(INITIAL, steps);
            && Drains(s.mods)
            && s.refs[x] == s.external[x] + InHand(s)[x] + HeldByAll(s.mods, x)
            && (s.mods == [] && s.act.Idle? ==> s.refs[x] == s.external[x])
  {
    InitialOk();
    RunKeeps(INITIAL, steps);
    assert CountedAt(Run(INITIAL, steps), x);
    hide Run, CanRun, Held, ModsOk, IdsOk, ActOk;
  }

  /** A message that is queued, handled or being published has not been freed. */
  lemma NoUseAfterFree(steps: seq<Step>, x: Msg)
    requires CanRun(INITIAL, steps)
    ensures var s := Run(INITIAL, steps);
            && Drains(s.mods)
            && (forall k :: 0 <= k < |s.mods| && x in s.mods[k].mq[s.mods[k].drained..] ==> s.refs[x] > 0)
            && (forall k :: 0 <= k < |s.mods| && x in InFlight(s.mods[k]) ==> s.refs[x] > 0)
            && (s.act.Publishing? && |s.log| > 0 && Last(s.log).msg == x ==> s.refs[x] > 0)
  {
    InitialOk();
    RunKeeps(INITIAL, steps);
    var s := Run(INITIAL, steps);
    hide Run, CanRun, ModsOk, IdsOk;
    forall k | 0 <= k < |s.mods| ensures Held(s.mods[k])[x] <= s.refs[x] {
      assert CountedAt(s, x);
      HeldOne(s.mods, k, x);
      hide Held, HeldByAll, InHand;
    }
    assert s.external[x] <= s.refs[x] by { assert CountedAt(s, x); }
    hide Counted, Drains;
    if s.act.Publishing? && Last(s.log).msg == x {
      PublishedIsHeld(s, x);
    }
    hide ActOk, MayPublish;
  }

  lemma PublishedIsHeld(s: State, x: Msg)
    requires ActOk(s) && Drains(s.mods) && s.act.Publishing? && Last(s.log).msg == x
    ensures s.external[x] > 0 || exists k :: 0 <= k < |s.mods| && Held(s.mods[k])[x] > 0
  {
  }

  // ----- What is queued is delivered -----

  /** A bound on the steps a worker needs to empty its queue. */
  function Backlog(m: Mod): nat {
    4 * |m.mq| + match m.worker
                 case Exited | Waiting => 0
                 case Inner => 2
                 case Outer | Woken | Relocking => 3
                 case Starting | Handling(_, _) => 4
  }

  predicate CaughtUp(m: Mod) {
    m.mq == [] && InFlight(m) == []
  }

  /** With no call in progress a worker behind can go on, and each step brings it closer to an empty queue. */
  lemma BacklogShrinks(s: State, k: nat)
    requires Inv(s) && s.act.Idle? && k < |s.mods| && !CaughtUp(s.mods[k])
    requires !(s.mods[k].worker.Handling? && s.mods[k].worker.calling)
    ensures var m := s.mods[k];
            && CanWork(m) && Backlog(WorkOn(m)) < Backlog(m) && Got(WorkOn(m)) == Got(m)
            && !(WorkOn(m).worker.Handling? && WorkOn(m).worker.calling)
  {
    assert ModOk(s.act, s.log, s.mods[k], k);
    WorkGotIfAble(s.mods[k]);
    hide ExactAt, Counted, IdsOk, Got;
  }

  lemma WorkGotIfAble(m: Mod)
    ensures CanWork(m) ==> Got(WorkOn(m)) == Got(m)
  {
    if CanWork(m) { WorkGot(m); }
  }

  /**
   * Nothing that is queued stays behind: with no call in progress the worker's own steps hand over
   * everything the module was given, in order, unless its handler waits to publish.
   */
  lemma {:induction false} QueueIsDelivered(s: State, k: nat) returns (steps: seq<Step>)
    requires Inv(s) && s.act.Idle? && k < |s.mods|
    requires !(s.mods[k].worker.Handling? && s.mods[k].worker.calling)
    ensures |steps| <= Backlog(s.mods[k]) && forall i :: 0 <= i < |steps| ==> steps[i] == Work(k)
    ensures CanRun(s, steps) && k < |Run(s, steps).mods|
    ensures Run(s, steps).mods[k].delivered == Got(s.mods[k]) && CaughtUp(Run(s, steps).mods[k])
    decreases Backlog(s.mods[k])
  {
    if CaughtUp(s.mods[k]) {
      return [];
    }
    BacklogShrinks(s, k);
    WorkStep(s, k);
    hide Inv, CanWork, WorkOn, Backlog, Got, CaughtUp;
    var rest := QueueIsDelivered(Do(s, Work(k)), k);
    steps := [Work(k)] + rest;
    assert steps[1..] == rest;
  }

  // ----- When Broker_RemoveModule returns -----

  predicate AtJoin(s: State) {
    s.act.Removing? && s.act.stage.Joining? && s.act.victim < |s.mods|
  }

  /** The module's handler is waiting in Broker_Publish for modules_lock, which its own removal holds. */
  predicate Blocked(s: State) {
    AtJoin(s) && s.mods[s.act.victim].worker.Handling? && s.mods[s.act.victim].worker.calling
  }

  function StepsLeft(w: Worker): nat {
    match w
    case Exited => 0
    case Outer => 1
    case Inner | Starting => 2
    case Woken | Relocking => 3
    case Handling(_, _) => 4
    case Waiting => 5
  }

  /** While the worker is joined only it can change its place, and never back to waiting. */
  lemma JoiningVictim(s: State)
    requires Inv(s) && AtJoin(s)
    ensures var m := s.mods[s.act.victim];
            && m.quit && !m.worker.Waiting? && m.holder != ByBroker
            && (m.holder == ByWorker <==> m.worker.Outer? || m.worker.Inner?)
            && (CanWork(m) <==> !m.worker.Exited? && !Blocked(s))
            && (CanWork(m) ==> StepsLeft(WorkOn(m).worker) < StepsLeft(m.worker))
  {
    assert ModOk(s.act, s.log, s.mods[s.act.victim], s.act.victim);
    hide ExactAt, Counted, IdsOk;
  }

  /** While the call is at the join, the steps of others leave the call and the module as they are. */
  lemma JoiningUntouched(s: State, step: Step)
    requires AtJoin(s) && Enabled(s, step) && !step.RemoveOn?
    requires step.Work? || step.Wake? || step.Call? ==> step.k != s.act.victim
    ensures var r := Do(s, step);
            r.act == s.act && |r.mods| == |s.mods| && r.mods[s.act.victim] == s.mods[s.act.victim]
  {
    hide WorkOn, Signal, CanWork;
  }

  /** No step of another thread sets the worker back, and none unblocks a handler that is blocked. */
  lemma JoiningStep(s: State, step: Step)
    requires Inv(s) && AtJoin(s) && Enabled(s, step)
    ensures var (i, r) := (s.act.victim, Do(s, step));
            && (step.RemoveOn? <==> r.act != s.act)
            && (step.RemoveOn? ==> s.mods[i].worker.Exited?)
            && (!step.RemoveOn? ==> AtJoin(r) && r.act == s.act
                                    && StepsLeft(r.mods[i].worker) <= StepsLeft(s.mods[i].worker))
            && (step == Work(i) ==> StepsLeft(r.mods[i].worker) < StepsLeft(s.mods[i].worker))
            && (Blocked(s) ==> Blocked(r))
            && (Blocked(r) && !Blocked(s) ==> step == Call(i))
  {
    JoiningVictim(s);
    hide Inv;
    if !step.RemoveOn? && (step.Work? || step.Wake? || step.Call? ==> step.k != s.act.victim) {
      JoiningUntouched(s, step);
      hide Do, Enabled;
    } else {
      hide WorkOn, Signal;
    }
  }

  /** A removal whose worker waits in Broker_Publish is stuck, whatever any thread does. */
  lemma {:induction false} BlockedForever(s: State, steps: seq<Step>)
    requires Inv(s) && Blocked(s) && CanRun(s, steps)
    ensures Blocked(Run(s, steps)) && Inv(Run(s, steps))
    decreases |steps|
  {
    if steps != [] {
      JoiningStep(s, steps[0]);
      StepKeeps(s, steps[0]);
      hide Blocked, Inv, AtJoin;
      BlockedForever(Do(s, steps[0]), steps[1..]);
    }
  }

  /** Any other removal goes through as soon as the worker is given its next few steps. */
  lemma {:induction false} JoinReturns(s: State) returns (steps: seq<Step>)
    requires Inv(s) && AtJoin(s) && !Blocked(s)
    ensures |steps| <= StepsLeft(s.mods[s.act.victim].worker)
    ensures forall i :: 0 <= i < |steps| ==> steps[i] == Work(s.act.victim)
    ensures CanRun(s, steps) && CanRemoveOn(Run(s, steps)) && Run(s, steps).act == s.act
    decreases StepsLeft(s.mods[s.act.victim].worker)
  {
    if s.mods[s.act.victim].worker.Exited? {
      return [];
    }
    var step := Work(s.act.victim);
    JoiningVictim(s);
    JoiningStep(s, step);
    StepKeeps(s, step);
    hide Blocked, Inv, CanRemoveOn;
    var rest := JoinReturns(Do(s, step));
    steps := [step] + rest;
    assert steps[1..] == rest;
  }

  /** RemoveModule can return exactly when the handler of the removed module is not calling Broker_Publish. */
  lemma JoinReturnsIff(s: State)
    requires Inv(s) && AtJoin(s)
    ensures (exists steps :: CanRun(s, steps) && CanRemoveOn(Run(s, steps))) <==> !Blocked(s)
  {
    if Blocked(s) {
      forall steps | CanRun(s, steps) ensures !CanRemoveOn(Run(s, steps)) {
        BlockedForever(s, steps);
      }
    } else {
      var steps := JoinReturns(s);
    }
    hide Inv, Blocked, AtJoin;
  }

  // ----- A module whose handler never publishes -----

  /** No step of the run is a call of Broker_Publish by the handler of the module with this number. */
  predicate NoCalls(s: State, steps: seq<Step>, id: nat)
    requires CanRun(s, steps)
    decreases |steps|
  {
    steps == [] ||
    ((steps[0].Call? ==> s.mods[steps[0].k].id != id) && NoCalls(Do(s, steps[0]), steps[1..], id))
  }

  predicate NotCalling(s: State, id: nat) {
    forall k :: 0 <= k < |s.mods| && s.mods[k].id == id && s.mods[k].worker.Handling? ==> !s.mods[k].worker.calling
  }

  lemma WorkNotCalling(m: Mod)
    requires CanWork(m)
    ensures WorkOn(m).id == m.id && (WorkOn(m).worker.Handling? ==> !WorkOn(m).worker.calling)
  {
  }

  lemma PublishNotCalling(s: State, pushed: bool, id: nat)
    requires CanPublishOn(s) && NotCalling(s, id)
    ensures NotCalling(PublishNext(s, pushed), id)
  {
  }

  lemma RemoveNotCalling(s: State, id: nat)
    requires CanRemoveOn(s) && NotCalling(s, id)
    ensures NotCalling(RemoveNext(s), id)
  {
  }

  lemma NotCallingStep(s: State, step: Step, id: nat)
    requires Enabled(s, step) && NotCalling(s, id) && (step.Call? ==> s.mods[step.k].id != id)
    ensures NotCalling(Do(s, step), id)
  {
    hide WorkOn, CanWork, PublishNext, CanPublishOn, RemoveNext, CanRemoveOn;
    match step
    case PublishOn(pushed) => PublishNotCalling(s, pushed, id);
    case RemoveOn => RemoveNotCalling(s, id);
    case Work(k) => WorkNotCalling(s.mods[k]);
    case _ =>
  }

  lemma {:induction false} NotCallingRun(s: State, steps: seq<Step>, id: nat)
    requires CanRun(s, steps) && NoCalls(s, steps, id) && NotCalling(s, id)
    ensures NotCalling(Run(s, steps), id)
    decreases |steps|
  {
    if steps != [] {
      NotCallingStep(s, steps[0], id);
      hide NotCalling, Do, Enabled;
      NotCallingRun(Do(s, steps[0]), steps[1..], id);
    }
  }

  /** In no run does a module whose handler never publishes block its removal. */
  lemma SilentHandlerNeverBlocks(steps: seq<Step>, id: nat)
    requires CanRun(INITIAL, steps) && NoCalls(INITIAL, steps, id)
    ensures var s := Run(INITIAL, steps); Blocked(s) ==> s.mods[s.act.victim].id != id
  {
    NotCallingRun(INITIAL, steps, id);
    hide Run, CanRun, NoCalls;
  }

  function WorkSteps(steps: seq<Step>, k: nat): nat {
    if steps == [] then 0 else (if steps[0] == Work(k) then 1 else 0) + WorkSteps(steps[1..], k)
  }

  lemma {:induction false} JoinProgress(s: State, steps: seq<Step>)
    requires Inv(s) && AtJoin(s) && !Blocked(s) && CanRun(s, steps) && RemoveOn !in steps
    requires NoCalls(s, steps, s.mods[s.act.victim].id)
    ensures var (i, r) := (s.act.victim, Run(s, steps));
            && Inv(r) && AtJoin(r) && r.act == s.act && !Blocked(r)
            && StepsLeft(r.mods[i].worker) + WorkSteps(steps, i) <= StepsLeft(s.mods[i].worker)
    decreases |steps|
  {
    if steps != [] {
      var r := Do(s, steps[0]);
      StepKeeps(s, steps[0]);
      JoiningStep(s, steps[0]);
      JoiningSame(s, steps[0]);
      assert steps[0] != Call(s.act.victim);
      hide Inv, AtJoin, Blocked, StepsLeft, Do, Enabled;
      JoinProgress(r, steps[1..]);
    }
  }

  lemma JoiningSame(s: State, step: Step)
    requires AtJoin(s) && Enabled(s, step) && !step.RemoveOn?
    ensures s.act.victim < |Do(s, step).mods| && Do(s, step).mods[s.act.victim].id == s.mods[s.act.victim].id
  {
  }

  /**
   * If the handler of a module never publishes, its removal returns in every run from the join on:
   * its worker can always go on, and after at most four steps of its own it has ended.
   */
  lemma RemovalReturns(before: seq<Step>, after: seq<Step>)
    requires CanRun(INITIAL, before) && AtJoin(Run(INITIAL, before))
    requires var s := Run(INITIAL, before);
             var id := s.mods[s.act.victim].id;
             NoCalls(INITIAL, before, id) && CanRun(s, after) && NoCalls(s, after, id) && RemoveOn !in after
    ensures var s := Run(INITIAL, before);
            var (i, r) := (s.act.victim, Run(s, after));
            && AtJoin(r) && r.act == s.act && (CanRemoveOn(r) || CanWork(r.mods[i]))
            && (WorkSteps(after, i) >= 4 ==> CanRemoveOn(r))
  {
    var s := Run(INITIAL, before);
    InitialOk();
    RunKeeps(INITIAL, before);
    SilentHandlerNeverBlocks(before, s.mods[s.act.victim].id);
    JoiningVictim(s);
    JoinProgress(s, after);
    JoiningVictim(Run(s, after));
    hide Inv, Run, CanRun, NoCalls, WorkOn, CanWork;
  }

  // ----- Such a removal can happen -----

  ghost predicate Reachable(s: State) {
    exists steps :: CanRun(INITIAL, steps) && Run(INITIAL, steps) == s
  }

  lemma {:induction false} RunSnoc(s: State, steps: seq<Step>, step: Step)
    requires CanRun(s, steps) && Enabled(Run(s, steps), step)
    ensures CanRun(s, steps + [step]) && Run(s, steps + [step]) == Do(Run(s, steps), step)
    decreases |steps|
  {
    hide Do, Enabled;
    if steps == [] {
      assert [step][1..] == [];
    } else {
      RunSnoc(Do(s, steps[0]), steps[1..], step);
      assert (steps + [step])[1..] == steps[1..] + [step];
    }
  }

  lemma ReachNext(s: State, step: Step, r: State)
    requires Reachable(s) && Enabled(s, step)
    requires var d := Do(s, step);
             && d.mods == r.mods && d.act == r.act && d.log == r.log
             && d.refs == r.refs && d.external == r.external && d.nextId == r.nextId
    ensures Reachable(r)
  {
    var steps :| CanRun(INITIAL, steps) && Run(INITIAL, steps) == s;
    RunSnoc(INITIAL, steps, step);
    assert Do(s, step) == r by { hide Do, Enabled; }
    hide Do, Enabled;
  }

  /** One module handling message 0, before and after its handler asks to publish. */
  function Handler(calling: bool, quit: bool): Mod {
    Mod(0, 1, 0, [], quit, Free, Handling(0, calling), [], 0)
  }

  function AfterPublish(m: Mod, a: Activity, refs: multiset<Msg>): State {
    State([m], a, [Publication(NULL, 0, {})], refs, multiset{0}, 1)
  }

  lemma ClonedReachable()
    ensures Reachable(AfterPublish(Mod(0, 1, 0, [], false, ByBroker, Starting, [], 0),
                                   Publishing(None, 0, Cloned, true), multiset{0, 0}))
  {
    hide Reachable;
    assert Reachable(INITIAL) by { RunsFromInitial(); }
    var m := Mod(0, 1, 0, [], false, Free, Starting, [], 0);
    var l := m.(holder := ByBroker);
    var s := State([], Idle, [], multiset{0}, multiset{0}, 0);
    ReachNext(INITIAL, Create(0), s);
    var a := s.(mods := [m], nextId := 1);
    ReachNext(s, Add(1), a);
    var b := AfterPublish(m, Publishing(None, 0, Next, true), multiset{0});
    ReachNext(a, Publish(None, NULL, 0), b);
    var c := AfterPublish(l, Publishing(None, 0, Locked, true), multiset{0});
    ReachNext(b, PublishOn(true), c);
    ReachNext(c, PublishOn(true), AfterPublish(l, Publishing(None, 0, Cloned, true), multiset{0, 0}));
  }

  lemma QueuedReachable()
    ensures Reachable(AfterPublish(Mod(0, 1, 0, [0], false, Free, Starting, [], 0), Idle, multiset{0, 0}))
  {
    ClonedReachable();
    hide Reachable;
    var m := Mod(0, 1, 0, [0], false, Free, Starting, [], 0);
    var l := m.(holder := ByBroker);
    var d := AfterPublish(l.(mq := []), Publishing(None, 0, Cloned, true), multiset{0, 0});
    var e := AfterPublish(l, Publishing(None, 0, Pushed, true), multiset{0, 0});
    assert l.(mq := []).mq + [0] == [0];
    ReachNext(d, PublishOn(true), e);
    var f := AfterPublish(l, Publishing(None, 0, Posted, true), multiset{0, 0});
    ReachNext(e, PublishOn(true), f);
    var g := AfterPublish(m, Publishing(None, 1, Next, true), multiset{0, 0});
    ReachNext(f, PublishOn(true), g);
    ReachNext(g, PublishOn(true), AfterPublish(m, Idle, multiset{0, 0}));
  }

  lemma RunsFromInitial()
    ensures Reachable(INITIAL)
  {
    assert CanRun(INITIAL, []) && Run(INITIAL, []) == INITIAL;
  }

  /** A module that publishes from its handler while it is being removed blocks Broker_RemoveModule for good. */
  lemma RemovalCanBlock()
    ensures exists s :: Reachable(s) && Blocked(s)
  {
    QueuedReachable();
    hide Reachable;
    var m := Mod(0, 1, 0, [0], false, Free, Starting, [], 0);
    var a := AfterPublish(m.(holder := ByWorker, worker := Outer), Idle, multiset{0, 0});
    ReachNext(AfterPublish(m, Idle, multiset{0, 0}), Work(0), a);
    var b := AfterPublish(m.(holder := ByWorker, worker := Inner), Idle, multiset{0, 0});
    ReachNext(a, Work(0), b);
    var c := AfterPublish(Handler(false, false), Idle, multiset{0, 0});
    assert m.mq[1..] == [];
    ReachNext(b, Work(0), c);
    var d := AfterPublish(Handler(true, false), Idle, multiset{0, 0});
    ReachNext(c, Call(0), d);
    var e := AfterPublish(Handler(true, false), Removing(0, Locking), multiset{0, 0});
    ReachNext(d, Remove(0), e);
    var h := Handler(true, true).(holder := ByBroker);
    var f := AfterPublish(h, Removing(0, QuitSet), multiset{0, 0});
    ReachNext(e, RemoveOn, f);
    var g := AfterPublish(h, Removing(0, Signalled), multiset{0, 0});
    ReachNext(f, RemoveOn, g);
    var z := AfterPublish(Handler(true, true), Removing(0, Joining), multiset{0, 0});
    ReachNext(g, RemoveOn, z);
    assert Blocked(z);
  }
}
