/**
 * Who gets which message of the broadcast broker, said by positions in the list of publications,
 * and that a call of Broker_Publish can always return.
 */
module BroadcastDelivery {
  import opened Bytes
  import opened Frames
  import opened BroadcastBroker

  /** What a module was handed, is handling and has queued, in order. */
  function Given(m: Mod): seq<Msg> {
    m.delivered + (if m.worker.Handling? then [m.worker.msg] else []) + m.mq
  }

  /** idx lists positions of the log in increasing order, and got is what was published there. */
  ghost predicate ArePositions(idx: seq<nat>, got: seq<Msg>, log: seq<Publication>) {
    && |idx| == |got|
    && (forall j :: 0 <= j < |idx| ==> idx[j] < |log| && got[j] == log[idx[j]].msg)
    && (forall i, j :: 0 <= i < j < |idx| ==> idx[i] < idx[j])
  }

  /** The publication was made since the module joined, not by the module, and could be pushed to it. */
  predicate ReachesModule(p: Publication, i: nat, m: Mod) {
    m.since <= i && (p.source == NULL || p.source != m.handle) && m.id !in p.missed
  }

  /** The publisher in progress is still on its way to the k-th module. */
  predicate OnItsWay(a: Activity, k: nat) {
    a.Publishing? && (a.at < k || (a.at == k && (a.phase == Next || a.phase == Locked || a.phase == Cloned)))
  }

  lemma PositionsAppend(idx: seq<nat>, got: seq<Msg>, log: seq<Publication>, p: Publication, more: bool)
    requires ArePositions(idx, got, log)
    ensures ArePositions(idx + if more then [|log|] else [], got + if more then [p.msg] else [], log + [p])
  {
  }

  lemma {:induction false} DuePositions(log: seq<Publication>, m: Mod) returns (idx: seq<nat>)
    ensures ArePositions(idx, Due(log, m), log)
    ensures forall i: nat :: i < |log| ==> (i in idx <==> ReachesModule(log[i], i, m))
  {
    if |log| <= m.since {
      return [];
    }
    var (front, p) := (log[..|log| - 1], log[|log| - 1]);
    var before := DuePositions(front, m);
    var more := ReachesModule(p, |front|, m);
    PositionsAppend(before, Due(front, m), front, p, more);
    assert log == front + [p];
    idx := before + if more then [|front|] else [];
    assert Due(log, m) == Due(front, m) + if more then [p.msg] else [];
    forall i: nat | i < |log| ensures i in idx <==> ReachesModule(log[i], i, m) {
      if i < |front| {
        assert front[i] == log[i];
      } else {
        assert |front| !in before;
      }
    }
    hide ArePositions, Due;
  }

  /**
   * In every run a module has been given, in the order of publication, exactly the messages published
   * since it joined by others than itself that could be pushed to it, each once; a publication still
   * on its way to the module is not among them.
   */
  lemma GivenIsPublished(steps: seq<Step>, k: nat) returns (idx: seq<nat>)
    requires CanRun(INITIAL, steps) && k < |Run(INITIAL, steps).mods|
    ensures var s := Run(INITIAL, steps);
            var (m, last) := (s.mods[k], |s.log| - 1);
            && ArePositions(idx, Given(m), s.log)
            && (forall i: nat :: i < |s.log| && !(i == last && OnItsWay(s.act, k)) ==>
                  (i in idx <==> m.since <= i && (s.log[i].source == NULL || s.log[i].source != m.handle)
                                 && m.id !in s.log[i].missed))
            && (OnItsWay(s.act, k) ==> |s.log| > 0 && last !in idx)
  {
    InitialOk();
    RunKeeps(INITIAL, steps);
    var s := Run(INITIAL, steps);
    hide Run, CanRun, Inv;
    PublishingLog(s);
    var m := s.mods[k];
    assert ExactAt(s.act, s.log, m, k) by { ExactOfInv(s, k); }
    var seen := if OnItsWay(s.act, k) then s.log[..|s.log| - 1] else s.log;
    assert seen == Seen(s.act, s.log, k) && Given(m) == Got(m);
    idx := DuePositions(seen, m);
    hide Due, Got, Given, ExactAt, Seen;
    forall i: nat | i < |seen| ensures i in idx <==> ReachesModule(s.log[i], i, m) {
      assert seen[i] == s.log[i];
    }
  }

  lemma PublishingLog(s: State)
    requires Inv(s)
    ensures s.act.Publishing? ==> |s.log| > 0
  {
    hide ModsOk, Counted, IdsOk;
  }

  lemma ExactOfInv(s: State, k: nat)
    requires Inv(s) && k < |s.mods|
    ensures ExactAt(s.act, s.log, s.mods[k], k)
  {
    assert ModOk(s.act, s.log, s.mods[k], k);
    hide ActOk, Counted, IdsOk, LocksOk, WakeOk, ExactAt;
  }

  /** A module whose handle published nothing since it joined, and for which no push failed, gets everything. */
  lemma SilentModuleGetsAll(steps: seq<Step>, k: nat)
    requires CanRun(INITIAL, steps) && k < |Run(INITIAL, steps).mods|
    requires var s := Run(INITIAL, steps);
             !OnItsWay(s.act, k)
             && forall i: nat :: s.mods[k].since <= i < |s.log| ==>
                  (s.log[i].source == NULL || s.log[i].source != s.mods[k].handle) && s.mods[k].id !in s.log[i].missed
    ensures var s := Run(INITIAL, steps);
            && |Given(s.mods[k])| == |s.log| - s.mods[k].since
            && forall j :: 0 <= j < |s.log| - s.mods[k].since ==> Given(s.mods[k])[j] == s.log[s.mods[k].since + j].msg
  {
    var s := Run(INITIAL, steps);
    var idx := GivenIsPublished(steps, k);
    InitialOk();
    RunKeeps(INITIAL, steps);
    ExactOfInv(s, k);
    hide Run, CanRun, Inv, Given, Due, Got;
    AllPositions(idx, s.mods[k].since, |s.log|);
  }

  /** Increasing numbers that are all those of a range are that range. */
  lemma {:induction false} AllPositions(idx: seq<nat>, lo: nat, hi: nat)
    requires lo <= hi && (forall i, j :: 0 <= i < j < |idx| ==> idx[i] < idx[j])
    requires forall i: nat :: i in idx <==> lo <= i < hi
    ensures |idx| == hi - lo
    ensures forall j :: 0 <= j < |idx| ==> idx[j] == lo + j
    decreases hi
  {
    assert idx != [] ==> idx[0] in idx;
    if lo < hi {
      assert hi - 1 in idx;
      var (front, last) := (idx[..|idx| - 1], idx[|idx| - 1]);
      var j :| 0 <= j < |idx| && idx[j] == hi - 1;
      assert last in idx && last == hi - 1;
      forall i: nat ensures i in front <==> lo <= i < hi - 1 {
        if i in front {
          var a :| 0 <= a < |front| && front[a] == i;
          assert idx[a] in idx && idx[a] < idx[|idx| - 1];
        }
        if lo <= i < hi - 1 {
          assert i in idx;
          var a :| 0 <= a < |idx| && idx[a] == i;
          assert front[a] == i;
        }
      }
      AllPositions(front, lo, hi - 1);
    }
  }

  // ----- What the log and the marks of failed pushes say about the calls -----

  /** The calls of Broker_Publish made in a run, in order. */
  function Calls(steps: seq<Step>): seq<(Handle, Msg)> {
    if steps == [] then []
    else (if steps[0].Publish? then [(steps[0].source, steps[0].msg)] else []) + Calls(steps[1..])
  }

  /** The same calls, and the same failed pushes unless one of them fails now. */
  ghost predicate SameCalls(before: seq<Publication>, after: seq<Publication>, failing: bool) {
    && |after| == |before|
    && (forall i :: 0 <= i < |before| ==> after[i].source == before[i].source && after[i].msg == before[i].msg)
    && (!failing ==> forall i :: 0 <= i < |before| ==> after[i].missed == before[i].missed)
  }

  lemma PublishLog(s: State, pushed: bool)
    requires CanPublishOn(s)
    ensures SameCalls(s.log, PublishNext(s, pushed).log, !pushed)
  {
    hide IsFor, Signal;
  }

  lemma LogStep(s: State, step: Step)
    requires Enabled(s, step)
    ensures var r := Do(s, step);
            if step.Publish? then r.log == s.log + [Publication(step.source, step.msg, {})]
            else SameCalls(s.log, r.log, step == PublishOn(false))
  {
    if step.PublishOn? { PublishLog(s, step.pushed); }
    hide PublishNext, CanPublishOn, WorkOn, CanWork, Signal;
  }

  /** The sources and messages of a log. */
  function Entries(log: seq<Publication>): (es: seq<(Handle, Msg)>)
    ensures |es| == |log| && forall i :: 0 <= i < |log| ==> es[i] == (log[i].source, log[i].msg)
  {
    seq(|log|, i requires 0 <= i < |log| => (log[i].source, log[i].msg))
  }

  lemma EntriesStep(s: State, step: Step)
    requires Enabled(s, step)
    ensures Entries(Do(s, step).log) == Entries(s.log) + if step.Publish? then [(step.source, step.msg)] else []
  {
    LogStep(s, step);
    hide Do, Enabled, Entries;
  }

  lemma {:induction false} LogRuns(s: State, steps: seq<Step>)
    requires CanRun(s, steps)
    ensures Entries(Run(s, steps).log) == Entries(s.log) + Calls(steps)
    decreases |steps|
  {
    hide Do, Enabled, Entries;
    if steps != [] {
      EntriesStep(s, steps[0]);
      LogRuns(Do(s, steps[0]), steps[1..]);
    }
  }

  /** The log is the list of all calls, each with its source and message. */
  lemma LogIsCalls(steps: seq<Step>)
    requires CanRun(INITIAL, steps)
    ensures var (log, calls) := (Run(INITIAL, steps).log, Calls(steps));
            |log| == |calls| && forall i :: 0 <= i < |log| ==> log[i].source == calls[i].0 && log[i].msg == calls[i].1
  {
    LogRuns(INITIAL, steps);
    assert Entries([]) + Calls(steps) == Calls(steps);
    hide Run, CanRun, Calls, Entries;
  }

  /** If no push fails no module misses anything. */
  lemma {:induction false} NothingMissed(s: State, steps: seq<Step>)
    requires CanRun(s, steps) && PublishOn(false) !in steps
    requires forall i :: 0 <= i < |s.log| ==> s.log[i].missed == {}
    ensures forall i :: 0 <= i < |Run(s, steps).log| ==> Run(s, steps).log[i].missed == {}
    decreases |steps|
  {
    if steps != [] {
      LogStep(s, steps[0]);
      assert steps[0] in steps;
      hide Do, Enabled;
      NothingMissed(Do(s, steps[0]), steps[1..]);
    }
  }

  /** A module is added last, under its own handle and a number of its own, with nothing yet to get. */
  lemma AddedModule(s: State, handle: Handle)
    requires Inv(s) && Enabled(s, Add(handle))
    ensures var r := Do(s, Add(handle));
            && |r.mods| == |s.mods| + 1 && r.mods[..|s.mods|] == s.mods && r.log == s.log
            && var m := r.mods[|s.mods|];
               && m.handle == handle && m.since == |s.log| && Given(m) == [] && m.worker == Starting
               && forall k :: 0 <= k < |s.mods| ==> s.mods[k].id != m.id
  {
    hide ModsOk, Counted;
  }

  predicate SameModules(a: seq<Mod>, b: seq<Mod>) {
    |a| == |b| && forall i :: 0 <= i < |a| ==> a[i].id == b[i].id && a[i].handle == b[i].handle
  }

  /**
   * While a module is being removed all modules stay, whatever any thread does, until that one - and
   * no other - leaves the list.
   */
  lemma RemovalIs(s: State, step: Step)
    requires s.act.Removing? && s.act.victim < |s.mods| && Enabled(s, step)
    ensures var (r, k) := (Do(s, step), s.act.victim);
            if r.act.Removing? then r.act.victim == k && SameModules(r.mods, s.mods)
            else r.act == Idle && r.mods == s.mods[..k] + s.mods[k + 1..]
  {
    match step
    case RemoveOn => RemovalGoesOn(s);
    case Work(k) =>
      WorkIsSame(s.mods[k]);
      hide RemoveNext, WorkOn;
    case _ => hide RemoveNext, WorkOn;
  }

  lemma RemovalGoesOn(s: State)
    requires CanRemoveOn(s)
    ensures var (r, k) := (RemoveNext(s), s.act.victim);
            if r.act.Removing? then r.act.victim == k && SameModules(r.mods, s.mods)
            else r.act == Idle && r.mods == s.mods[..k] + s.mods[k + 1..]
  {
  }

  lemma WorkIsSame(m: Mod)
    requires CanWork(m)
    ensures WorkOn(m).id == m.id && WorkOn(m).handle == m.handle
  {
  }

  /** The module removed is the one that was named, and at first nothing else happens. */
  lemma RemovalBegins(s: State, k: nat)
    requires Enabled(s, Remove(k))
    ensures var r := Do(s, Remove(k)); r.act.Removing? && r.act.victim == k && r == s.(act := r.act)
  {
  }

  // ----- A publication can always be completed -----

  /** How many steps a worker makes before it lets go of its lock. */
  function LockSteps(m: Mod): nat {
    if m.holder != ByWorker then 0
    else if m.mq == [] then (if m.worker == Inner then 2 else 1)
    else if m.worker == Outer then 2
    else 1
  }

  function PhaseLeft(phase: PublishPhase): nat {
    match phase
    case Next => 10
    case Locked => 4
    case Cloned => 3
    case Pushed => 2
    case Posted => 1
  }

  /** A bound on the steps a call of Broker_Publish has left. */
  function PublishLeft(s: State): nat {
    if !s.act.Publishing? then 0
    else if s.act.at >= |s.mods| then PhaseLeft(s.act.phase)
    else 20 * (|s.mods| - s.act.at) + PhaseLeft(s.act.phase)
         + if s.act.phase == Next then LockSteps(s.mods[s.act.at]) else 0
  }

  lemma WorkLetsGo(m: Mod)
    requires m.holder == ByWorker && !m.quit && (m.worker == Outer || m.worker == Inner)
    ensures CanWork(m) && LockSteps(WorkOn(m)) < LockSteps(m)
  {
  }

  lemma PublishWaits(s: State)
    requires Inv(s) && s.act.Publishing? && s.act.phase == Next && s.act.at < |s.mods|
    requires s.mods[s.act.at].holder == ByWorker
    ensures var (step, r) := (Work(s.act.at), Do(s, Work(s.act.at)));
            Enabled(s, step) && PublishLeft(r) < PublishLeft(s) && r.act == s.act
  {
    var m := s.mods[s.act.at];
    PublishLocksOf(s);
    WorkLetsGo(m);
    hide Inv, WorkOn, CanWork, LockSteps;
  }

  lemma PublishLocksOf(s: State)
    requires Inv(s) && s.act.Publishing? && s.act.at < |s.mods|
    ensures var m := s.mods[s.act.at];
            && !m.quit && (m.holder == ByWorker ==> m.worker == Outer || m.worker == Inner)
            && (s.act.phase == Next ==> m.holder != ByBroker)
  {
    assert ModOk(s.act, s.log, s.mods[s.act.at], s.act.at);
    hide Counted, IdsOk, WakeOk, ExactAt, ActOk;
  }

  lemma PublishGoes(s: State)
    requires CanPublishOn(s)
    ensures var r := PublishNext(s, true); PublishLeft(r) < PublishLeft(s) && (r.act.Publishing? || r.act.Idle?)
  {
    hide IsFor;
  }

  lemma PublishEnabled(s: State)
    requires Inv(s) && s.act.Publishing?
    requires s.act.phase == Next && s.act.at < |s.mods| ==> s.mods[s.act.at].holder == Free
    ensures CanPublishOn(s)
  {
    hide Counted, IdsOk, ModsOk, IsFor;
  }

  lemma PublishCanGoOn(s: State) returns (step: Step)
    requires Inv(s) && s.act.Publishing?
    ensures step == PublishOn(true) || step == Work(s.act.at)
    ensures Enabled(s, step)
    ensures PublishLeft(Do(s, step)) < PublishLeft(s) && (Do(s, step).act.Publishing? || Do(s, step).act.Idle?)
  {
    if s.act.phase == Next && s.act.at < |s.mods| && s.mods[s.act.at].holder == ByWorker {
      PublishWaits(s);
      step := Work(s.act.at);
    } else {
      if s.act.at < |s.mods| { PublishLocksOf(s); }
      PublishEnabled(s);
      PublishGoes(s);
      step := PublishOn(true);
    }
    hide Inv, CanPublishOn, PublishNext, PublishLeft, WorkOn, CanWork;
  }

  /** However the workers stand, their steps and its own bring a call of Broker_Publish to its end. */
  lemma {:induction false} PublishReturns(s: State) returns (steps: seq<Step>)
    requires Inv(s) && s.act.Publishing?
    ensures |steps| <= PublishLeft(s) && CanRun(s, steps) && Run(s, steps).act.Idle?
    decreases PublishLeft(s)
  {
    var step := PublishCanGoOn(s);
    StepKeeps(s, step);
    var r := Do(s, step);
    hide Inv, PublishLeft, Do, Enabled;
    var rest := [];
    if r.act.Publishing? {
      rest := PublishReturns(r);
    } else {
      assert CanRun(r, rest) && Run(r, rest) == r;
    }
    steps := [step] + rest;
    assert steps[1..] == rest;
  }
}
