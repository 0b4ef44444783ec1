/**
 * End to end: modules publish through the broker while the gateway changes its modules and links,
 * and workers hand what they receive to their modules.
 */
module Delivery {
  import opened Bytes
  import opened Messages
  import opened Frames
  import opened PubSubBroker
  import opened GatewayModel

  /** A call of Broker_Publish, with the modules and links of the gateway at that moment. */
  datatype Publication = Publication(source: Handle, message: Message, modules: seq<ModuleData>, links: seq<Link>)

  /** A call of Module_Receive; cause is the position of the publication the frame was made from. */
  datatype Receipt = Receipt(sink: Handle, message: Message, cause: int)

  /**
   * causes says, for each frame waiting in each inbox, which publication it came from (-1 for a
   * quit frame); guids are the quit GUIDs generated so far.
   */
  datatype World = World(gw: State, log: seq<Publication>, receipts: seq<Receipt>,
                         causes: map<Handle, seq<int>>, guids: set<Guid>)

  const NEW_WORLD := World(INITIAL, [], [], map[], {})

  datatype Step =
    | Gateway(op: Op)
    | Publish(source: Handle, message: Message, dropped: set<Handle>)
    | Work(sink: Handle)

  /** The contracts of the libraries and callers: fresh handles, fresh GUIDs, sizes within int32. */
  predicate Enabled(w: World, step: Step) {
    match step
    case Gateway(op) => Allowed(w.gw, op) && (op.OpAddModule? ==> op.env.guid !in w.guids)
    case Publish(source, m, _) => source != NULL && Publishable(m)
    case Work(t) => t in w.gw.sockets && w.gw.sockets[t].inbox != [] && t in w.causes && w.causes[t] != []
                    && |w.gw.sockets[t].inbox[0]| <= INT32_MAX
  }

  /** Frames that the gateway's own operations put into inboxes have no publication. */
  function CausesAfter(s: State, r: State, causes: map<Handle, seq<int>>, cause: int): map<Handle, seq<int>> {
    map t | t in r.sockets ::
      if t !in s.sockets || t !in causes then []
      else if |r.sockets[t].inbox| > |s.sockets[t].inbox| then causes[t] + [cause]
      else causes[t]
  }

  function Next(w: World, step: Step): World
    requires Enabled(w, step)
  {
    match step
    case Gateway(op) =>
      var gw := Apply(w.gw, op);
      w.(gw := gw, causes := CausesAfter(w.gw, gw, w.causes, -1),
         guids := if op.OpAddModule? then w.guids + {op.env.guid} else w.guids)
    case Publish(source, m, dropped) =>
      var gw := w.gw.(sockets := Offer(w.gw.sockets, DataFrame(source, m), dropped));
      w.(gw := gw, causes := CausesAfter(w.gw, gw, w.causes, |w.log|),
         log := w.log + [Publication(source, m, w.gw.modules, w.gw.links)])
    case Work(t) =>
      var s := w.gw.sockets[t];
      var outcome := Receive(s.guid, s.inbox[0]);
      w.(gw := w.gw.(sockets := w.gw.sockets[t := s.(inbox := s.inbox[1..])]),
         causes := w.causes[t := w.causes[t][1..]],
         receipts := if outcome.Delivered? then w.receipts + [Receipt(t, outcome.message, w.causes[t][0])]
                     else w.receipts)
  }

  // ----- The invariant -----

  /** Publisher and sink were modules of the gateway, and linked. */
  predicate Linked(p: Publication, sink: Handle) {
    && p.source in Handles(p.modules) && sink in Handles(p.modules)
    && (HasRegular(p.links, p.source, sink) || (HasAny(p.links, sink) && p.source != sink))
  }

  /** A waiting frame is a linked publication, or another module's quit frame. */
  ghost predicate FrameOk(w: World, t: Handle, frame: Frame, cause: int)
    requires t in w.gw.sockets
  {
    if cause == -1 then
      exists g :: g in w.guids && g != w.gw.sockets[t].guid && frame == QuitFrame(g)
    else
      && 0 <= cause < |w.log|
      && Publishable(w.log[cause].message)
      && frame == DataFrame(w.log[cause].source, w.log[cause].message)
      && Linked(w.log[cause], t)
  }

  ghost predicate InboxOk(w: World, t: Handle)
    requires t in w.gw.sockets
  {
    var inbox := w.gw.sockets[t].inbox;
    && t in w.causes && |w.causes[t]| == |inbox|
    && (forall i :: 0 <= i < |inbox| ==> FrameOk(w, t, inbox[i], w.causes[t][i]))
    && (forall i, j :: 0 <= i < j < |inbox| && w.causes[t][i] != -1 && w.causes[t][j] != -1 ==>
          w.causes[t][i] < w.causes[t][j])
  }

  ghost predicate ReceiptOk(w: World, r: Receipt) {
    && 0 <= r.cause < |w.log|
    && r.message == w.log[r.cause].message
    && Linked(w.log[r.cause], r.sink)
  }

  /** What a sink has received was published before anything still waiting for it. */
  ghost predicate ReceiptsBeforeWaiting(w: World) {
    forall r, i :: r in w.receipts && r.sink in w.causes && 0 <= i < |w.causes[r.sink]| ==>
      w.causes[r.sink][i] == -1 || r.cause < w.causes[r.sink][i]
  }

  /** Each sink receives each publication at most once, in the order of publication. */
  ghost predicate ReceiptsInOrder(receipts: seq<Receipt>) {
    forall i, j :: 0 <= i < j < |receipts| && receipts[i].sink == receipts[j].sink ==>
      receipts[i].cause < receipts[j].cause
  }

  ghost predicate GuidsOk(w: World) {
    && (forall t :: t in w.gw.sockets ==> w.gw.sockets[t].guid in w.guids)
    && (forall t, u :: t in w.gw.sockets && u in w.gw.sockets && t != u ==>
          w.gw.sockets[t].guid != w.gw.sockets[u].guid)
  }

  ghost predicate Good(w: World) {
    && WellFormed(w.gw) && Safe(w.gw) && GuidsOk(w)
    && w.causes.Keys == w.gw.sockets.Keys
    && (forall t :: t in w.gw.sockets ==> InboxOk(w, t))
    && (forall r :: r in w.receipts ==> ReceiptOk(w, r))
    && ReceiptsBeforeWaiting(w) && ReceiptsInOrder(w.receipts)
  }

  // ----- Frames that gateway operations and publications put into inboxes -----

  /** The quit frames an operation sends: of a module that is removed, or of one that could not be added. */
  ghost predicate QuitSentBy(s: State, op: Op, g: Guid) {
    || (op.OpAddModule? && g == op.env.guid)
    || exists h :: h in s.sockets && h !in Apply(s, op).sockets && g == s.sockets[h].guid
  }

  lemma OfferedInbox(s: Sockets, frame: Frame, dropped: set<Handle>, t: Handle)
    requires t in s
    ensures var r := Offer(s, frame, dropped)[t];
            && r.guid == s[t].guid && r.subs == s[t].subs
            && (r.inbox == s[t].inbox || (r.inbox == s[t].inbox + [frame] && Matches(s[t], frame)))
  {
  }

  ghost predicate SameSocket(a: Socket, b: Socket) {
    b.guid == a.guid && b.inbox == a.inbox
  }

  ghost predicate OneQuitMore(a: Socket, b: Socket, g: Guid) {
    b.guid == a.guid && b.inbox == a.inbox + [QuitFrame(g)]
  }

  lemma RemovalInboxes(s: State, i: nat, dropped: set<Handle>, t: Handle)
    requires i < |s.modules| && t in RemoveModuleAt(s, i, dropped).sockets && WellFormed(s)
    ensures var (r, h) := (RemoveModuleAt(s, i, dropped), s.modules[i].handle);
            && h in s.sockets && h !in r.sockets && t in s.sockets
            && (SameSocket(s.sockets[t], r.sockets[t]) || OneQuitMore(s.sockets[t], r.sockets[t], s.sockets[h].guid))
  {
    var h := s.modules[i].handle;
    assert s.modules[i] in s.modules;
    var forgotten := Forget(s.sockets, h);
    OfferedInbox(forgotten, QuitFrame(forgotten[h].guid), dropped, t);
    hide UniqueModules, UniqueLinks, LiveLinks, Matches, QuitFrame;
  }

  lemma AddModuleInboxes(s: State, name: string, env: AddEnv, t: Handle)
    requires env.handle !in s.sockets && t in AddModule(s, name, env).0.sockets
    ensures var r := AddModule(s, name, env).0;
            if t !in s.sockets then r.sockets[t] == Socket(env.guid, multiset{}, [])
            else SameSocket(s.sockets[t], r.sockets[t]) || OneQuitMore(s.sockets[t], r.sockets[t], env.guid)
  {
    hide Matches, HasAny, HasRegular, QuitFrame, FindByName, AnyRefused;
    if t in s.sockets {
      OfferedInbox(s.sockets, QuitFrame(env.guid), env.dropped, t);
    }
  }

  /** What a gateway operation does to one socket, subscriptions aside. */
  ghost predicate InboxChange(s: State, op: Op, t: Handle, b: Socket) {
    if t !in s.sockets then op.OpAddModule? && b == Socket(op.env.guid, multiset{}, [])
    else SameSocket(s.sockets[t], b) || exists g :: QuitSentBy(s, op, g) && OneQuitMore(s.sockets[t], b, g)
  }

  lemma AddedInboxes(s: State, op: Op, t: Handle)
    requires WellFormed(s) && Allowed(s, op) && op.OpAddModule? && t in Apply(s, op).sockets
    ensures InboxChange(s, op, t, Apply(s, op).sockets[t])
  {
    assert s.sockets.Keys == Handles(s.modules);
    assert QuitSentBy(s, op, op.env.guid);
    hide AddModule, SameSocket, OneQuitMore, QuitSentBy, WellFormed, Handles;
    AddModuleInboxes(s, op.name, op.env, t);
  }

  lemma LinkInboxes(s: State, op: Op, t: Handle)
    requires (op.OpAddLink? || op.OpRemoveLink?) && t in Apply(s, op).sockets
    ensures t in s.sockets && SameSocket(s.sockets[t], Apply(s, op).sockets[t])
  {
    hide FindByName, LinkIndex, FirstRefused, Others;
  }

  lemma GatewayInboxes(s: State, op: Op, t: Handle)
    requires WellFormed(s) && Allowed(s, op) && t in Apply(s, op).sockets
    ensures InboxChange(s, op, t, Apply(s, op).sockets[t])
  {
    hide WellFormed, Allowed, SameSocket, OneQuitMore, AddModule, AddLink, RemoveLink, RemoveModule, QuitSentBy;
    match op
    case OpAddModule(name, env) => AddedInboxes(s, op, t);
    case OpRemoveModule(h, dropped) => RemovedInboxes(s, op, h, dropped, t);
    case OpRemoveModuleByName(name, dropped) =>
      if FindByName(s.modules, name).Some? {
        RemovedInboxes(s, op, FindByName(s.modules, name).value.handle, dropped, t);
      } else {
        assert Apply(s, op) == s;
        assert SameSocket(s.sockets[t], s.sockets[t]) by { SameIsSame(s.sockets[t]); }
      }
    case OpAddLink(_, _, _) => LinkInboxes(s, op, t);
    case OpRemoveLink(_, _) => LinkInboxes(s, op, t);
  }

  lemma SameIsSame(a: Socket)
    ensures SameSocket(a, a)
  {
  }

  lemma RemovedInboxes(s: State, op: Op, h: Handle, dropped: set<Handle>, t: Handle)
    requires WellFormed(s) && Apply(s, op) == RemoveModule(s, h, dropped) && t in Apply(s, op).sockets
    ensures t in s.sockets
    ensures || SameSocket(s.sockets[t], Apply(s, op).sockets[t])
            || exists g :: QuitSentBy(s, op, g) && OneQuitMore(s.sockets[t], Apply(s, op).sockets[t], g)
  {
    var i := IndexOfHandle(s.modules, h);
    if i < |s.modules| {
      RemovalInboxes(s, i, dropped, t);
      hide RemoveModuleAt, WellFormed, QuitFrame;
      assert QuitSentBy(s, op, s.sockets[h].guid);
    }
  }

  /** In an exact state the sinks a publication can reach are those the link graph names, and no others. */
  lemma PublicationReachesExactlyLinked(s: State, source: Handle, m: Message, t: Handle)
    requires WellFormed(s) && Exact(s) && t in s.sockets
    ensures Matches(s.sockets[t], DataFrame(source, m)) <==>
            || HasRegular(s.links, source, t)
            || (HasAny(s.links, t) && source != t && source in Handles(s.modules))
  {
    DataFrameMatches(s.sockets[t], source, m);
    hide Matches, DataFrame, WellFormed, HasRegular, HasAny, Handles;
    assert Deficit(s, source, t) == 0;
  }

  // ----- The steps keep the invariant -----

  /** r is w after at most one frame, with the given cause, was appended to each inbox. */
  ghost predicate Appended(w: World, r: World, cause: int) {
    && r.receipts == w.receipts && w.log <= r.log && w.guids <= r.guids
    && (cause == -1 || cause == |w.log|)
    && r.causes == CausesAfter(w.gw, r.gw, w.causes, cause)
    && forall t :: t in r.gw.sockets ==> AppendedAt(w, r, t, cause)
  }

  ghost predicate AppendedAt(w: World, r: World, t: Handle, cause: int)
    requires t in r.gw.sockets
  {
    var b := r.gw.sockets[t];
    if t !in w.gw.sockets then b.inbox == []
    else
      var a := w.gw.sockets[t];
      b.guid == a.guid
      && (b.inbox == a.inbox
          || exists f :: b.inbox == a.inbox + [f] && FrameOk(r, t, f, cause))
  }

  lemma FrameStaysOk(w: World, r: World, t: Handle, frame: Frame, cause: int)
    requires w.log <= r.log && w.guids <= r.guids && t in w.gw.sockets && t in r.gw.sockets
    requires r.gw.sockets[t].guid == w.gw.sockets[t].guid && FrameOk(w, t, frame, cause)
    ensures FrameOk(r, t, frame, cause)
  {
    hide QuitFrame, DataFrame, Linked, Publishable;
  }

  lemma AppendedInbox(w: World, r: World, cause: int, t: Handle)
    requires Appended(w, r, cause) && t in r.gw.sockets && (t in w.gw.sockets ==> InboxOk(w, t))
    ensures InboxOk(r, t)
  {
    hide FrameOk;
    assert AppendedAt(w, r, t, cause);
    if t in w.gw.sockets {
      var a := w.gw.sockets[t].inbox;
      forall i | 0 <= i < |a| ensures FrameOk(r, t, a[i], w.causes[t][i]) {
        FrameStaysOk(w, r, t, a[i], w.causes[t][i]);
      }
      forall i | 0 <= i < |a| ensures w.causes[t][i] == -1 || w.causes[t][i] < |w.log| {
        assert FrameOk(w, t, a[i], w.causes[t][i]);
        CauseOfFrame(w, t, a[i], w.causes[t][i]);
      }
    }
  }

  lemma CauseOfFrame(w: World, t: Handle, frame: Frame, cause: int)
    requires t in w.gw.sockets && FrameOk(w, t, frame, cause)
    ensures -1 <= cause < |w.log|
  {
  }

  lemma AppendedKeeps(w: World, r: World, cause: int)
    requires Good(w) && Appended(w, r, cause) && WellFormed(r.gw) && Safe(r.gw) && GuidsOk(r)
    ensures Good(r)
  {
    hide WellFormed, Safe, GuidsOk, Linked;
    forall t | t in r.gw.sockets ensures InboxOk(r, t) {
      AppendedInbox(w, r, cause, t);
    }
    hide InboxOk;
    AppendedReceipts(w, r, cause);
  }

  lemma AppendedReceipts(w: World, r: World, cause: int)
    requires Appended(w, r, cause)
    requires forall x :: x in w.receipts ==> ReceiptOk(w, x)
    requires ReceiptsBeforeWaiting(w)
    ensures forall x :: x in r.receipts ==> ReceiptOk(r, x)
    ensures ReceiptsBeforeWaiting(r)
  {
    hide Linked, AppendedAt;
    forall x, i | x in r.receipts && x.sink in r.causes && 0 <= i < |r.causes[x.sink]|
      ensures r.causes[x.sink][i] == -1 || x.cause < r.causes[x.sink][i]
    {
      assert ReceiptOk(w, x);
    }
  }

  lemma PublishRouting(w: World, source: Handle, m: Message, dropped: set<Handle>)
    requires source != NULL && Publishable(m)
    ensures SameRouting(w.gw, Next(w, Publish(source, m, dropped)).gw)
  {
    hide Matches, DataFrame, Publishable;
  }

  lemma SameGuids(w: World, r: World)
    requires GuidsOk(w) && SameRouting(w.gw, r.gw) && w.guids == r.guids
    ensures GuidsOk(r)
  {
  }

  lemma PublishKeeps(w: World, source: Handle, m: Message, dropped: set<Handle>)
    requires Good(w) && Publishable(m) && source != NULL
    ensures Good(Next(w, Publish(source, m, dropped)))
  {
    hide WellFormed, Safe, Offer, Appended, InboxOk, GuidsOk, SameRouting, Publishable, DataFrame, CausesAfter;
    hide ReceiptsBeforeWaiting, ReceiptsInOrder, ReceiptOk;
    var r := Next(w, Publish(source, m, dropped));
    PublishAppends(w, source, m, dropped);
    PublishRouting(w, source, m, dropped);
    SameRoutingKeeps(w.gw, r.gw);
    SameGuids(w, r);
    AppendedKeeps(w, r, |w.log|);
  }

  lemma PublishedSocket(w: World, source: Handle, m: Message, dropped: set<Handle>, t: Handle)
    requires Publishable(m) && source != NULL && t in w.gw.sockets
    ensures var (a, r) := (w.gw.sockets[t], Next(w, Publish(source, m, dropped)));
            && t in r.gw.sockets && r.log == w.log + [Publication(source, m, w.gw.modules, w.gw.links)]
            && var b := r.gw.sockets[t];
               && b.guid == a.guid
               && (b.inbox == a.inbox || (b.inbox == a.inbox + [DataFrame(source, m)] && source in a.subs))
  {
    OfferedInbox(w.gw.sockets, DataFrame(source, m), dropped, t);
    DataFrameMatches(w.gw.sockets[t], source, m);
    hide Matches, DataFrame, Publishable, CausesAfter;
  }

  lemma RegularIsLive(s: State, source: Handle, t: Handle)
    requires WellFormed(s) && HasRegular(s.links, source, t)
    ensures source in Handles(s.modules)
  {
  }

  lemma SubscribedIsLinked(s: State, source: Handle, t: Handle, p: Publication)
    requires WellFormed(s) && Safe(s) && t in s.sockets && source in s.sockets[t].subs
    requires p.source == source && p.modules == s.modules && p.links == s.links
    ensures Linked(p, t)
  {
    assert s.sockets.Keys == Handles(s.modules);
    assert Deficit(s, source, t) >= 0;
    if HasRegular(s.links, source, t) { RegularIsLive(s, source, t); }
    hide HasRegular, HasAny, Handles, WellFormed;
  }

  lemma PublishedFrameOk(w: World, t: Handle, k: nat)
    requires t in w.gw.sockets && k < |w.log| && Publishable(w.log[k].message) && Linked(w.log[k], t)
    ensures FrameOk(w, t, DataFrame(w.log[k].source, w.log[k].message), k)
  {
  }

  lemma PublishAppendsAt(w: World, source: Handle, m: Message, dropped: set<Handle>, t: Handle)
    requires Good(w) && Publishable(m) && source != NULL && t in w.gw.sockets
    ensures AppendedAt(w, Next(w, Publish(source, m, dropped)), t, |w.log|)
  {
    var r := Next(w, Publish(source, m, dropped));
    assert WellFormed(w.gw) && Safe(w.gw) by { hide WellFormed, Safe, InboxOk, ReceiptOk; }
    PublishedSocket(w, source, m, dropped, t);
    hide Next, Publishable, DataFrame, Linked, Good, FrameOk, WellFormed, Safe;
    if source in w.gw.sockets[t].subs {
      SubscribedIsLinked(w.gw, source, t, r.log[|w.log|]);
      PublishedFrameOk(r, t, |w.log|);
    }
  }

  /** A published frame reaches only sinks the link graph names for its source. */
  lemma PublishAppends(w: World, source: Handle, m: Message, dropped: set<Handle>)
    requires Good(w) && Publishable(m) && source != NULL
    ensures Appended(w, Next(w, Publish(source, m, dropped)), |w.log|)
  {
    var r := Next(w, Publish(source, m, dropped));
    assert r.gw.sockets.Keys == w.gw.sockets.Keys && r.log == w.log + [r.log[|w.log|]];
    forall t | t in r.gw.sockets ensures AppendedAt(w, r, t, |w.log|) {
      PublishAppendsAt(w, source, m, dropped, t);
      hide AppendedAt, Good, Publishable;
    }
    hide AppendedAt, Offer, DataFrame, Good, Publishable;
  }

  lemma GatewayKeeps(w: World, op: Op)
    requires Good(w) && Enabled(w, Gateway(op))
    ensures Good(Next(w, Gateway(op)))
  {
    var r := Next(w, Gateway(op));
    ApplyKeeps(w.gw, op);
    GatewayGuids(w, op);
    GatewayAppends(w, op);
    hide Apply, WellFormed, Safe, Appended, InboxOk;
    AppendedKeeps(w, r, -1);
  }

  lemma GatewayGuid(s: State, op: Op, t: Handle)
    requires WellFormed(s) && Allowed(s, op) && t in Apply(s, op).sockets
    ensures if t in s.sockets then Apply(s, op).sockets[t].guid == s.sockets[t].guid
            else op.OpAddModule? && t == op.env.handle && Apply(s, op).sockets[t].guid == op.env.guid
  {
    GatewayInboxes(s, op, t);
    if op.OpAddModule? { AddedHandle(s, op, t); }
    hide Apply, WellFormed, QuitFrame, QuitSentBy, Allowed;
  }

  lemma GatewayGuids(w: World, op: Op)
    requires WellFormed(w.gw) && GuidsOk(w) && Enabled(w, Gateway(op))
    ensures GuidsOk(Next(w, Gateway(op)))
  {
    hide Apply, WellFormed, Allowed, CausesAfter;
    var r := Next(w, Gateway(op));
    assert r.gw == Apply(w.gw, op);
    forall t | t in r.gw.sockets
      ensures if t in w.gw.sockets then r.gw.sockets[t].guid == w.gw.sockets[t].guid
              else op.OpAddModule? && t == op.env.handle && r.gw.sockets[t].guid == op.env.guid
    {
      GatewayGuid(w.gw, op, t);
    }
  }

  lemma AddedHandle(s: State, op: Op, t: Handle)
    requires op.OpAddModule? && t in Apply(s, op).sockets
    ensures t in s.sockets || t == op.env.handle
  {
  }

  /** A quit frame some operation sends is never the GUID of a socket that stays. */
  lemma QuitIsForeign(w: World, op: Op, g: Guid, t: Handle)
    requires GuidsOk(w) && Enabled(w, Gateway(op)) && QuitSentBy(w.gw, op, g)
    requires t in w.gw.sockets && t in Apply(w.gw, op).sockets
    ensures g != w.gw.sockets[t].guid && g in Next(w, Gateway(op)).guids
  {
    hide Apply, Allowed, CausesAfter;
  }

  lemma GatewayAppends(w: World, op: Op)
    requires Good(w) && Enabled(w, Gateway(op))
    ensures Appended(w, Next(w, Gateway(op)), -1)
  {
    hide Apply, WellFormed, Safe, InboxOk, GuidsOk, QuitFrame, QuitSentBy, CausesAfter, Allowed;
    hide ReceiptsBeforeWaiting, ReceiptsInOrder, ReceiptOk;
    var r := Next(w, Gateway(op));
    assert r.gw == Apply(w.gw, op);
    forall t | t in r.gw.sockets ensures AppendedAt(w, r, t, -1) {
      GatewayInboxes(w.gw, op, t);
      if t in w.gw.sockets && !SameSocket(w.gw.sockets[t], r.gw.sockets[t]) {
        var g :| QuitSentBy(w.gw, op, g) && OneQuitMore(w.gw.sockets[t], r.gw.sockets[t], g);
        QuitIsForeign(w, op, g, t);
        assert FrameOk(r, t, QuitFrame(g), -1);
      }
    }
  }

  /** A worker reads back exactly what was published, or ignores the quit frame of another module. */
  lemma WorkOutcome(w: World, t: Handle)
    requires Good(w) && Enabled(w, Work(t))
    ensures -1 <= w.causes[t][0] < |w.log|
    ensures Receive(w.gw.sockets[t].guid, w.gw.sockets[t].inbox[0])
         == if w.causes[t][0] == -1 then Ignored else Delivered(w.log[w.causes[t][0]].message)
  {
    hide WellFormed, Safe, Receive, DataFrame, QuitFrame;
    assert InboxOk(w, t);
    var s := w.gw.sockets[t];
    var c := w.causes[t][0];
    assert FrameOk(w, t, s.inbox[0], c);
    if c == -1 {
      var g :| g in w.guids && g != s.guid && s.inbox[0] == QuitFrame(g);
      QuitFrameReceived(s.guid, g);
    } else {
      DataFrameDelivered(s.guid, w.log[c].source, w.log[c].message);
    }
  }

  lemma WorkRouting(w: World, t: Handle)
    requires Enabled(w, Work(t))
    ensures SameRouting(w.gw, Next(w, Work(t)).gw)
  {
    hide Receive;
  }

  lemma WorkInbox(w: World, t: Handle, u: Handle)
    requires Good(w) && Enabled(w, Work(t)) && u in w.gw.sockets
    ensures InboxOk(Next(w, Work(t)), u)
  {
    hide WellFormed, Safe, GuidsOk, ReceiptsBeforeWaiting, ReceiptsInOrder, ReceiptOk, Receive, FrameOk;
    var r := Next(w, Work(t));
    assert InboxOk(w, u) && InboxOk(w, t);
    var (a, b) := (w.gw.sockets[u].inbox, r.gw.sockets[u].inbox);
    var d := if u == t then 1 else 0;
    assert forall i :: 0 <= i < |b| ==> b[i] == a[i + d] && r.causes[u][i] == w.causes[u][i + d];
    forall i | 0 <= i < |b| ensures FrameOk(r, u, b[i], r.causes[u][i]) {
      FrameStaysOk(w, r, u, a[i + d], w.causes[u][i + d]);
    }
  }

  lemma WorkReceipts(w: World, t: Handle)
    requires Good(w) && Enabled(w, Work(t))
    ensures var r := Next(w, Work(t));
            (forall x :: x in r.receipts ==> ReceiptOk(r, x)) && ReceiptsBeforeWaiting(r) && ReceiptsInOrder(r.receipts)
  {
    hide WellFormed, Safe, GuidsOk, Receive, Linked, DataFrame, QuitFrame, Publishable;
    var r := Next(w, Work(t));
    WorkOutcome(w, t);
    assert InboxOk(w, t);
    var c := w.causes[t][0];
    assert FrameOk(w, t, w.gw.sockets[t].inbox[0], c);
    if c != -1 {
      var last := Receipt(t, w.log[c].message, c);
      assert r.receipts == w.receipts + [last];
      assert ReceiptOk(r, last);
      forall i | 0 <= i < |w.receipts| && w.receipts[i].sink == t ensures w.receipts[i].cause < c {
        assert w.receipts[i] in w.receipts;
      }
    }
    assert forall i :: 0 <= i < |r.causes[t]| ==> r.causes[t][i] == w.causes[t][i + 1];
    forall x, i | x in r.receipts && x.sink in r.causes && 0 <= i < |r.causes[x.sink]|
      ensures r.causes[x.sink][i] == -1 || x.cause < r.causes[x.sink][i]
    {
      if x.sink == t {
        assert w.causes[t][i + 1] == -1 || c == -1 || c < w.causes[t][i + 1];
      }
    }
  }

  lemma WorkKeeps(w: World, t: Handle)
    requires Good(w) && Enabled(w, Work(t))
    ensures Good(Next(w, Work(t)))
  {
    hide WellFormed, Safe, GuidsOk, ReceiptsBeforeWaiting, ReceiptsInOrder, ReceiptOk, Receive, InboxOk, SameRouting;
    var r := Next(w, Work(t));
    WorkRouting(w, t);
    SameRoutingKeeps(w.gw, r.gw);
    SameGuids(w, r);
    forall u | u in w.gw.sockets ensures InboxOk(r, u) {
      WorkInbox(w, t, u);
    }
    WorkReceipts(w, t);
  }

  lemma StepKeeps(w: World, step: Step)
    requires Good(w) && Enabled(w, step)
    ensures Good(Next(w, step))
  {
    hide Good, Next, Allowed, Publishable;
    match step
    case Gateway(op) => GatewayKeeps(w, op);
    case Publish(source, m, dropped) => PublishKeeps(w, source, m, dropped);
    case Work(t) => WorkKeeps(w, t);
  }

  // ----- A module on its way out -----

  /**
   * A module whose removal waits for its worker: the socket is no longer in the broker's table, but
   * the worker may go on with the frames it had, its quit frame among them, until the socket is closed.
   */
  datatype Leaving = Leaving(sink: Handle, guid: Guid, inbox: seq<Frame>, causes: seq<int>)

  /** The gateway does nothing else while it removes a module; publishers and workers go on. */
  datatype System = System(world: World, leaving: Option<Leaving>)

  const NEW_SYSTEM := System(NEW_WORLD, None)

  datatype Action = Step(step: Step) | Drain | Close

  predicate CanAct(y: System, a: Action) {
    match a
    case Step(step) => Enabled(y.world, step) && (step.Gateway? ==> y.leaving == None)
    case Drain => y.leaving.Some? && y.leaving.value.inbox != [] && y.leaving.value.causes != []
                  && |y.leaving.value.inbox[0]| <= INT32_MAX
    case Close => y.leaving.Some?
  }

  /** The module an operation removes, and the sockets its quit frame does not reach. */
  function RemovedBy(s: State, op: Op): Option<(Handle, set<Handle>)> {
    match op
    case OpRemoveModule(h, dropped) => if IndexOfHandle(s.modules, h) < |s.modules| then Some((h, dropped)) else None
    case OpRemoveModuleByName(name, dropped) =>
      (match FindByName(s.modules, name)
       case Some(m) => if IndexOfHandle(s.modules, m.handle) < |s.modules| then Some((m.handle, dropped)) else None
       case None => None)
    case _ => None
  }

  /** That module with the frames it still has, its quit frame among them. */
  function LeavingAfter(w: World, op: Op): Option<Leaving> {
    match RemovedBy(w.gw, op)
    case None => None
    case Some((h, dropped)) =>
      if h !in w.gw.sockets || h !in w.causes then None
      else
        var s := w.gw.sockets[h];
        Some(if h in dropped then Leaving(h, s.guid, s.inbox, w.causes[h])
             else Leaving(h, s.guid, s.inbox + [QuitFrame(s.guid)], w.causes[h] + [-1]))
  }

  function Act(y: System, a: Action): System
    requires CanAct(y, a)
  {
    match a
    case Step(step) =>
      System(Next(y.world, step), if step.Gateway? then LeavingAfter(y.world, step.op) else y.leaving)
    case Close => y.(leaving := None)
    case Drain =>
      var l := y.leaving.value;
      var rest := Some(l.(inbox := l.inbox[1..], causes := l.causes[1..]));
      match Receive(l.guid, l.inbox[0])
      case Quit => y.(leaving := None)
      case Ignored => y.(leaving := rest)
      case Delivered(m) =>
        System(y.world.(receipts := y.world.receipts + [Receipt(l.sink, m, l.causes[0])]), rest)
  }

  /** A frame the leaving module still has is a linked publication, or a quit frame. */
  ghost predicate LeavingFrameOk(log: seq<Publication>, sink: Handle, frame: Frame, cause: int) {
    if cause == -1 then exists g: Guid :: frame == QuitFrame(g)
    else
      && 0 <= cause < |log| && Publishable(log[cause].message)
      && frame == DataFrame(log[cause].source, log[cause].message) && Linked(log[cause], sink)
  }

  ghost predicate LeavingOk(w: World, l: Leaving) {
    && l.sink !in w.gw.sockets && |l.causes| == |l.inbox|
    && (forall i :: 0 <= i < |l.inbox| ==> LeavingFrameOk(w.log, l.sink, l.inbox[i], l.causes[i]))
    && (forall i, j :: 0 <= i < j < |l.causes| && l.causes[i] != -1 && l.causes[j] != -1 ==> l.causes[i] < l.causes[j])
    && (forall r, i :: r in w.receipts && r.sink == l.sink && 0 <= i < |l.causes| ==>
          l.causes[i] == -1 || r.cause < l.causes[i])
  }

  ghost predicate GoodSystem(y: System) {
    Good(y.world) && (y.leaving.Some? ==> LeavingOk(y.world, y.leaving.value))
  }

  lemma RemoveDetaches(s: State, h: Handle, dropped: set<Handle>)
    requires IndexOfHandle(s.modules, h) < |s.modules|
    ensures h !in RemoveModule(s, h, dropped).sockets
  {
    hide Matches, QuitFrame;
  }

  lemma RemovedIsGone(w: World, op: Op)
    requires LeavingAfter(w, op).Some?
    ensures LeavingAfter(w, op).value.sink !in Apply(w.gw, op).sockets
    ensures var l := LeavingAfter(w, op).value;
            && l.sink in w.gw.sockets && l.sink in w.causes && l.guid == w.gw.sockets[l.sink].guid
            && ((l.inbox == w.gw.sockets[l.sink].inbox && l.causes == w.causes[l.sink])
                || (l.inbox == w.gw.sockets[l.sink].inbox + [QuitFrame(l.guid)] && l.causes == w.causes[l.sink] + [-1]))
  {
    var (h, dropped) := RemovedBy(w.gw, op).value;
    RemoveDetaches(w.gw, h, dropped);
    hide RemoveModule, QuitFrame;
  }

  lemma FrameOfLeaving(w: World, t: Handle, frame: Frame, cause: int)
    requires t in w.gw.sockets && FrameOk(w, t, frame, cause)
    ensures LeavingFrameOk(w.log, t, frame, cause)
  {
    hide Linked, Publishable, DataFrame, QuitFrame;
  }

  /** The frames a socket had when its module began to leave, as the leaving module's. */
  lemma LeftInbox(w: World, h: Handle, gw: State)
    requires Good(w) && h in w.gw.sockets && h !in gw.sockets
    ensures var l := Leaving(h, w.gw.sockets[h].guid, w.gw.sockets[h].inbox, w.causes[h]);
            LeavingOk(w.(gw := gw), l)
  {
    assert InboxOk(w, h);
    hide WellFormed, Safe, GuidsOk, ReceiptsInOrder, ReceiptOk, FrameOk, LeavingFrameOk;
    forall i | 0 <= i < |w.causes[h]| ensures LeavingFrameOk(w.log, h, w.gw.sockets[h].inbox[i], w.causes[h][i]) {
      FrameOfLeaving(w, h, w.gw.sockets[h].inbox[i], w.causes[h][i]);
    }
  }

  lemma QuitAppended(w: World, l: Leaving)
    requires LeavingOk(w, l)
    ensures LeavingOk(w, l.(inbox := l.inbox + [QuitFrame(l.guid)], causes := l.causes + [-1]))
  {
    var k := l.(inbox := l.inbox + [QuitFrame(l.guid)], causes := l.causes + [-1]);
    assert LeavingFrameOk(w.log, k.sink, QuitFrame(l.guid), -1);
    hide LeavingFrameOk;
  }

  lemma LeavingDepends(w: World, r: World, l: Leaving)
    requires LeavingOk(w, l) && r.log == w.log && r.receipts == w.receipts && r.gw == w.gw
    ensures LeavingOk(r, l)
  {
    hide LeavingFrameOk;
  }

  lemma LeavingStarts(w: World, op: Op)
    requires Good(w) && Enabled(w, Gateway(op)) && LeavingAfter(w, op).Some?
    ensures LeavingOk(Next(w, Gateway(op)), LeavingAfter(w, op).value)
  {
    var (l, gw) := (LeavingAfter(w, op).value, Apply(w.gw, op));
    RemovedIsGone(w, op);
    hide LeavingAfter, LeavingOk, Apply, QuitFrame;
    LeftInbox(w, l.sink, gw);
    QuitAppended(w.(gw := gw), Leaving(l.sink, l.guid, w.gw.sockets[l.sink].inbox, w.causes[l.sink]));
    hide Good, Enabled;
    LeavingDepends(w.(gw := gw), Next(w, Gateway(op)), l);
  }

  /** What other threads do leaves the leaving module alone. */
  lemma LeavingStays(w: World, step: Step, l: Leaving)
    requires Enabled(w, step) && !step.Gateway? && LeavingOk(w, l)
    ensures LeavingOk(Next(w, step), l)
  {
    LogGrows(w, step);
    hide Next, Enabled;
    LeavingKept(w, Next(w, step), l);
  }

  lemma LeavingKept(w: World, r: World, l: Leaving)
    requires LeavingOk(w, l) && w.log <= r.log && r.gw.sockets.Keys == w.gw.sockets.Keys
    requires forall x :: x in r.receipts ==> x in w.receipts || x.sink in w.gw.sockets
    ensures LeavingOk(r, l)
  {
    hide Linked, Publishable, DataFrame, QuitFrame;
    forall i | 0 <= i < |l.inbox| ensures LeavingFrameOk(r.log, l.sink, l.inbox[i], l.causes[i]) {
      assert LeavingFrameOk(w.log, l.sink, l.inbox[i], l.causes[i]);
    }
    hide LeavingFrameOk;
  }

  lemma LogGrows(w: World, step: Step)
    requires Enabled(w, step) && !step.Gateway?
    ensures var r := Next(w, step);
            && w.log <= r.log && r.gw.sockets.Keys == w.gw.sockets.Keys
            && (forall x :: x in r.receipts ==> x in w.receipts || x.sink in w.gw.sockets)
  {
    hide Receive, DataFrame, Matches, Publishable;
  }

  /** The leaving worker reads back what was published, stops at its quit frame and ignores any other. */
  lemma DrainOutcome(w: World, l: Leaving)
    requires LeavingOk(w, l) && l.inbox != [] && |l.inbox[0]| <= INT32_MAX
    ensures Receive(l.guid, l.inbox[0]).Delivered? ==>
              && 0 <= l.causes[0] < |w.log| && Linked(w.log[l.causes[0]], l.sink)
              && Receive(l.guid, l.inbox[0]).message == w.log[l.causes[0]].message
    ensures l.causes[0] != -1 ==> Receive(l.guid, l.inbox[0]).Delivered?
  {
    hide Receive, DataFrame, QuitFrame, Linked;
    var c := l.causes[0];
    assert LeavingFrameOk(w.log, l.sink, l.inbox[0], c);
    if c == -1 {
      var g: Guid :| l.inbox[0] == QuitFrame(g);
      QuitFrameReceived(l.guid, g);
    } else {
      DataFrameDelivered(l.guid, w.log[c].source, w.log[c].message);
    }
  }

  lemma RestOk(w: World, l: Leaving)
    requires LeavingOk(w, l) && l.inbox != []
    ensures LeavingOk(w, l.(inbox := l.inbox[1..], causes := l.causes[1..]))
  {
    var k := l.(inbox := l.inbox[1..], causes := l.causes[1..]);
    forall i | 0 <= i < |k.inbox| ensures LeavingFrameOk(w.log, k.sink, k.inbox[i], k.causes[i]) {
      assert LeavingFrameOk(w.log, l.sink, l.inbox[i + 1], l.causes[i + 1]);
    }
    hide LeavingFrameOk;
    forall r, i | r in w.receipts && r.sink == l.sink && 0 <= i < |k.causes|
      ensures k.causes[i] == -1 || r.cause < k.causes[i]
    {
      assert k.causes[i] == l.causes[i + 1];
    }
  }

  lemma ReceivedInboxes(w: World, x: Receipt, t: Handle)
    requires t in w.gw.sockets && InboxOk(w, t)
    ensures InboxOk(w.(receipts := w.receipts + [x]), t)
  {
    hide Linked, DataFrame, QuitFrame, Publishable;
  }

  lemma ReceivedReceipts(w: World, l: Leaving, x: Receipt)
    requires LeavingOk(w, l) && l.inbox != [] && x.sink == l.sink && x.cause == l.causes[0] != -1
    requires ReceiptOk(w, x) && (forall y :: y in w.receipts ==> ReceiptOk(w, y)) && l.sink !in w.causes
    requires ReceiptsBeforeWaiting(w) && ReceiptsInOrder(w.receipts)
    ensures var r := w.(receipts := w.receipts + [x]);
            && (forall y :: y in r.receipts ==> ReceiptOk(r, y)) && ReceiptsBeforeWaiting(r)
            && ReceiptsInOrder(r.receipts) && LeavingOk(r, l.(inbox := l.inbox[1..], causes := l.causes[1..]))
  {
    var r := w.(receipts := w.receipts + [x]);
    RestOk(w, l);
    hide Linked, LeavingFrameOk;
    forall y | y in r.receipts ensures ReceiptOk(r, y) {
      assert y == x || ReceiptOk(w, y);
    }
    forall i | 0 <= i < |w.receipts| && w.receipts[i].sink == l.sink ensures w.receipts[i].cause < x.cause {
      assert w.receipts[i] in w.receipts;
    }
    forall i | 0 <= i < |l.causes| - 1 && l.causes[1..][i] != -1 ensures x.cause < l.causes[1..][i] {
      assert l.causes[1..][i] == l.causes[i + 1];
    }
  }

  lemma ReceivedLeaving(w: World, l: Leaving, m: Message)
    requires Good(w) && LeavingOk(w, l) && l.inbox != [] && 0 <= l.causes[0] < |w.log|
    requires Linked(w.log[l.causes[0]], l.sink) && m == w.log[l.causes[0]].message
    ensures var r := w.(receipts := w.receipts + [Receipt(l.sink, m, l.causes[0])]);
            Good(r) && LeavingOk(r, l.(inbox := l.inbox[1..], causes := l.causes[1..]))
  {
    var x := Receipt(l.sink, m, l.causes[0]);
    hide WellFormed, Safe, GuidsOk, Linked, InboxOk, ReceiptsBeforeWaiting, ReceiptsInOrder, LeavingFrameOk;
    assert ReceiptOk(w, x) && l.sink !in w.causes;
    hide LeavingOk, ReceiptOk;
    ReceivedReceipts(w, l, x);
    forall t | t in w.gw.sockets ensures InboxOk(w.(receipts := w.receipts + [x]), t) {
      ReceivedInboxes(w, x, t);
    }
  }

  lemma DrainKeeps(y: System)
    requires GoodSystem(y) && CanAct(y, Drain)
    ensures GoodSystem(Act(y, Drain))
  {
    var l := y.leaving.value;
    DrainOutcome(y.world, l);
    RestOk(y.world, l);
    hide Good, LeavingOk, Receive, Linked;
    match Receive(l.guid, l.inbox[0])
    case Quit =>
    case Ignored =>
    case Delivered(m) => ReceivedLeaving(y.world, l, m);
  }

  lemma ActKeeps(y: System, a: Action)
    requires GoodSystem(y) && CanAct(y, a)
    ensures GoodSystem(Act(y, a))
  {
    match a
    case Step(step) =>
      hide Good, LeavingOk, Enabled, Next, LeavingAfter;
      StepKeeps(y.world, step);
      if step.Gateway? {
        if LeavingAfter(y.world, step.op).Some? { LeavingStarts(y.world, step.op); }
      } else if y.leaving.Some? {
        LeavingStays(y.world, step, y.leaving.value);
      }
    case Drain => DrainKeeps(y);
    case Close =>
  }

  // ----- Every run -----

  ghost predicate IsSystemRun(systems: seq<System>, actions: seq<Action>) {
    && |systems| == |actions| + 1 && systems[0] == NEW_SYSTEM
    && forall i :: 0 <= i < |actions| ==>
         CanAct(systems[i], actions[i]) && systems[i + 1] == Act(systems[i], actions[i])
  }

  lemma {:induction false} RunsAreGood(systems: seq<System>, actions: seq<Action>, n: nat)
    requires IsSystemRun(systems, actions) && n < |systems|
    ensures GoodSystem(systems[n])
  {
    if n == 0 {
      NewWorldIsGood();
    } else {
      RunsAreGood(systems, actions, n - 1);
      hide GoodSystem, Act, CanAct;
      assert CanAct(systems[n - 1], actions[n - 1]);
      ActKeeps(systems[n - 1], actions[n - 1]);
    }
  }

  lemma NewWorldIsGood()
    ensures Good(NEW_WORLD)
  {
  }

  /**
   * End-to-end delivery.  Whatever a module receives in any run, also while it is being removed, was
   * published with the same properties and content by a module of the gateway that was linked to it
   * when it published - directly, or by a wildcard link and not by itself; and a module receives
   * nothing twice or out of order.
   */
  lemma DeliveryIsSound(systems: seq<System>, actions: seq<Action>, n: nat)
    requires IsSystemRun(systems, actions) && n < |systems|
    ensures var w := systems[n].world;
            forall r :: r in w.receipts ==>
              && 0 <= r.cause < |w.log|
              && var p := w.log[r.cause];
                 && r.message == p.message
                 && p.source in Handles(p.modules) && r.sink in Handles(p.modules)
                 && (HasRegular(p.links, p.source, r.sink) || (HasAny(p.links, r.sink) && p.source != r.sink))
    ensures ReceiptsInOrder(systems[n].world.receipts)
  {
    RunsAreGood(systems, actions, n);
    hide WellFormed, Safe, GuidsOk, InboxOk, LeavingOk, ReceiptsBeforeWaiting, HasRegular, HasAny, Handles;
    var w := systems[n].world;
    forall r | r in w.receipts ensures ReceiptOk(w, r) {}
  }

  /** In no run does a worker stop for, or deliver, a quit frame that was meant for another module. */
  lemma WorkersOnlyReadPublications(systems: seq<System>, actions: seq<Action>, n: nat, t: Handle)
    requires IsSystemRun(systems, actions) && n < |systems| && Enabled(systems[n].world, Work(t))
    ensures var (w, s) := (systems[n].world, systems[n].world.gw.sockets[t]);
            match Receive(s.guid, s.inbox[0])
            case Quit => false
            case Ignored => exists g: Guid :: g != s.guid && s.inbox[0] == QuitFrame(g)
            case Delivered(m) => exists p :: p in w.log && p.message == m && s.inbox[0] == DataFrame(p.source, m)
  {
    RunsAreGood(systems, actions, n);
    var w := systems[n].world;
    WorkOutcome(w, t);
    hide WellFormed, Safe, GuidsOk, ReceiptsBeforeWaiting, ReceiptsInOrder, ReceiptOk, LeavingOk;
    hide Receive, DataFrame, QuitFrame;
    assert InboxOk(w, t);
    var c := w.causes[t][0];
    assert FrameOk(w, t, w.gw.sockets[t].inbox[0], c);
    if c != -1 {
      assert w.log[c] in w.log;
    }
  }

  /**
   * A module that is being removed loses nothing it had: its worker can hand over every publication
   * still waiting, one frame after the other, before it comes to its quit frame.
   */
  lemma DrainDelivers(systems: seq<System>, actions: seq<Action>, n: nat)
    requires IsSystemRun(systems, actions) && n < |systems| && CanAct(systems[n], Drain)
    ensures var (y, l) := (systems[n], systems[n].leaving.value);
            l.causes[0] != -1 ==>
              && 0 <= l.causes[0] < |y.world.log|
              && Act(y, Drain).world.receipts
                 == y.world.receipts + [Receipt(l.sink, y.world.log[l.causes[0]].message, l.causes[0])]
              && Act(y, Drain).leaving == Some(l.(inbox := l.inbox[1..], causes := l.causes[1..]))
  {
    RunsAreGood(systems, actions, n);
    DrainOutcome(systems[n].world, systems[n].leaving.value);
    hide Good, LeavingOk, Receive, IsSystemRun;
  }

  // ----- Nothing is lost but what the network drops -----

  /** The i-th publication waits for t or has been received by it. */
  ghost predicate Has(w: World, t: Handle, i: nat) {
    (t in w.causes && i as int in w.causes[t]) || exists r :: r in w.receipts && r.sink == t && r.cause == i
  }

  lemma HasWithGateway(w: World, op: Op, t: Handle, i: nat)
    requires Good(w) && Enabled(w, Gateway(op)) && Has(w, t, i)
    requires t in w.gw.sockets && t in Next(w, Gateway(op)).gw.sockets
    ensures Has(Next(w, Gateway(op)), t, i)
  {
    hide Apply, WellFormed, Safe, GuidsOk, InboxOk, ReceiptOk, ReceiptsBeforeWaiting, ReceiptsInOrder, Allowed;
  }

  lemma HasWithPublish(w: World, step: Step, t: Handle, i: nat)
    requires Good(w) && step.Publish? && Enabled(w, step) && Has(w, t, i) && t in w.gw.sockets
    ensures Has(Next(w, step), t, i)
  {
    hide WellFormed, Safe, GuidsOk, InboxOk, ReceiptOk, ReceiptsBeforeWaiting, ReceiptsInOrder, DataFrame, Matches;
  }

  lemma HasWithWork(w: World, u: Handle, t: Handle, i: nat)
    requires Good(w) && Enabled(w, Work(u)) && Has(w, t, i) && t in w.gw.sockets
    ensures Has(Next(w, Work(u)), t, i)
  {
    var r := Next(w, Work(u));
    WorkOutcome(w, u);
    var c := w.causes[u];
    hide WellFormed, Safe, GuidsOk, InboxOk, ReceiptOk, ReceiptsBeforeWaiting, ReceiptsInOrder, Receive;
    if x :| x in w.receipts && x.sink == t && x.cause == i {
      assert x in r.receipts;
    } else if t == u && c[0] == i {
      assert r.receipts[|w.receipts|] in r.receipts;
    } else if t == u {
      var k :| 0 <= k < |c| && c[k] == i;
      assert c[1..][k - 1] == i;
    }
  }

  /** No step loses it for a module that stays attached. */
  lemma HasStays(y: System, a: Action, t: Handle, i: nat)
    requires GoodSystem(y) && CanAct(y, a) && Has(y.world, t, i)
    requires t in y.world.gw.sockets && t in Act(y, a).world.gw.sockets
    ensures Has(Act(y, a).world, t, i)
  {
    hide Good, Next, Enabled, LeavingOk, LeavingAfter, Receive, Has;
    match a
    case Step(step) =>
      match step {
        case Gateway(op) => HasWithGateway(y.world, op, t, i);
        case Publish(_, _, _) => HasWithPublish(y.world, step, t, i);
        case Work(u) => HasWithWork(y.world, u, t, i);
      }
    case Drain => HasAfterDrain(y, t, i);
    case Close =>
  }

  lemma HasAfterDrain(y: System, t: Handle, i: nat)
    requires CanAct(y, Drain) && Has(y.world, t, i)
    ensures Has(Act(y, Drain).world, t, i)
  {
    hide Receive;
  }

  lemma PublishedHas(w: World, source: Handle, m: Message, dropped: set<Handle>, t: Handle)
    requires Good(w) && Exact(w.gw) && source != NULL && Publishable(m) && t in w.gw.sockets && t !in dropped
    requires HasRegular(w.gw.links, source, t)
             || (HasAny(w.gw.links, t) && source != t && source in Handles(w.gw.modules))
    ensures Has(Next(w, Publish(source, m, dropped)), t, |w.log|)
  {
    var r := Next(w, Publish(source, m, dropped));
    PublicationReachesExactlyLinked(w.gw, source, m, t);
    OfferIs(w.gw.sockets, DataFrame(source, m), dropped, t);
    assert t in w.causes by { hide WellFormed, Safe, GuidsOk, InboxOk; }
    hide WellFormed, Safe, Exact, GuidsOk, InboxOk, ReceiptOk, Matches, DataFrame, HasRegular, HasAny, Handles,
         Publishable;
    assert |r.gw.sockets[t].inbox| > |w.gw.sockets[t].inbox|;
    assert r.causes[t] == w.causes[t] + [|w.log|];
    assert r.causes[t][|w.causes[t]|] == |w.log|;
  }

  /** Until then no wildcard addition failed on an overlap. */
  ghost predicate NoLoss(systems: seq<System>, actions: seq<Action>, n: nat)
    requires n <= |actions| < |systems|
  {
    forall i :: 0 <= i < n && actions[i].Step? && actions[i].step.Gateway? ==>
      !LossyOp(systems[i].world.gw, actions[i].step.op)
  }

  lemma ExactStays(y: System, a: Action)
    requires GoodSystem(y) && CanAct(y, a) && Exact(y.world.gw)
    requires a.Step? && a.step.Gateway? ==> !LossyOp(y.world.gw, a.step.op)
    ensures Exact(Act(y, a).world.gw)
  {
    assert WellFormed(y.world.gw) && Safe(y.world.gw) by { hide WellFormed, Safe, InboxOk, ReceiptOk, LeavingOk; }
    hide Good, WellFormed, Safe, Exact, LeavingOk, LossyOp, Apply, Receive, SameRouting, Publishable, Allowed;
    match a
    case Step(step) =>
      match step {
        case Gateway(op) => ApplyKeeps(y.world.gw, op);
        case Publish(source, m, dropped) =>
          PublishRouting(y.world, source, m, dropped);
          SameRoutingKeeps(y.world.gw, Next(y.world, step).gw);
        case Work(u) =>
          WorkRouting(y.world, u);
          SameRoutingKeeps(y.world.gw, Next(y.world, step).gw);
      }
    case _ =>
  }

  lemma {:induction false} RunsAreExact(systems: seq<System>, actions: seq<Action>, n: nat)
    requires IsSystemRun(systems, actions) && n < |systems| && NoLoss(systems, actions, n)
    ensures Exact(systems[n].world.gw)
  {
    if n > 0 {
      RunsAreExact(systems, actions, n - 1);
      RunsAreGood(systems, actions, n - 1);
      assert CanAct(systems[n - 1], actions[n - 1]) && systems[n] == Act(systems[n - 1], actions[n - 1]);
      hide GoodSystem, CanAct, Act, Exact, IsSystemRun, LossyOp;
      ExactStays(systems[n - 1], actions[n - 1]);
    }
  }

  lemma RunLengths(systems: seq<System>, actions: seq<Action>)
    requires IsSystemRun(systems, actions)
    ensures |systems| == |actions| + 1
  {
  }

  lemma RunStep(systems: seq<System>, actions: seq<Action>, k: nat)
    requires IsSystemRun(systems, actions) && k < |actions| && |systems| == |actions| + 1
    ensures CanAct(systems[k], actions[k]) && systems[k + 1] == Act(systems[k], actions[k])
  {
    hide CanAct, Act;
  }

  /** The module is attached from the j-th to the n-th state. */
  predicate Stays(systems: seq<System>, t: Handle, j: nat, n: nat) {
    n < |systems| && forall k :: j <= k <= n ==> t in systems[k].world.gw.sockets
  }

  lemma StaysUntil(systems: seq<System>, t: Handle, j: nat, n: nat)
    requires j < n && Stays(systems, t, j, n)
    ensures Stays(systems, t, j, n - 1) && Stays(systems, t, j + 1, n)
    ensures t in systems[n].world.gw.sockets && t in systems[n - 1].world.gw.sockets && t in systems[j].world.gw.sockets
  {
  }

  lemma HasNext(systems: seq<System>, actions: seq<Action>, k: nat, t: Handle, i: nat)
    requires IsSystemRun(systems, actions) && k + 1 < |systems| && Has(systems[k].world, t, i)
    requires t in systems[k].world.gw.sockets && t in systems[k + 1].world.gw.sockets
    ensures Has(systems[k + 1].world, t, i)
  {
    RunLengths(systems, actions);
    RunStep(systems, actions, k);
    RunsAreGood(systems, actions, k);
    var (y, a) := (systems[k], actions[k]);
    hide IsSystemRun, GoodSystem, CanAct, Act, Has;
    HasStays(y, a, t, i);
  }

  lemma {:induction false} HasForGood(systems: seq<System>, actions: seq<Action>, j: nat, n: nat, t: Handle, i: nat)
    requires IsSystemRun(systems, actions) && j <= n < |systems| && Has(systems[j].world, t, i)
    requires Stays(systems, t, j, n)
    ensures Has(systems[n].world, t, i)
  {
    hide Has, IsSystemRun, Stays;
    if n > j {
      StaysUntil(systems, t, j, n);
      HasForGood(systems, actions, j, n - 1, t, i);
      HasNext(systems, actions, n - 1, t, i);
    }
  }

  lemma HasMeans(w: World, t: Handle, i: nat)
    requires Good(w) && Has(w, t, i) && t in w.gw.sockets
    ensures i < |w.log|
    ensures || DataFrame(w.log[i].source, w.log[i].message) in w.gw.sockets[t].inbox
            || exists r :: r in w.receipts && r.sink == t && r.cause == i && r.message == w.log[i].message
  {
    hide WellFormed, Safe, GuidsOk, DataFrame, QuitFrame, Publishable, Linked;
    if x :| x in w.receipts && x.sink == t && x.cause == i {
      assert ReceiptOk(w, x);
    } else {
      assert InboxOk(w, t);
      var k :| 0 <= k < |w.causes[t]| && w.causes[t][k] == i;
      assert FrameOk(w, t, w.gw.sockets[t].inbox[k], i);
    }
  }

  /**
   * Delivery is complete: what a module of the gateway publishes is received by, or waiting for, every
   * module linked to it - directly, or by a wildcard that is not itself - which the frame reaches and
   * which stays attached, as long as no wildcard addition has failed on an overlap before.
   */
  lemma DeliveryIsComplete(systems: seq<System>, actions: seq<Action>, j: nat, n: nat, t: Handle)
    requires IsSystemRun(systems, actions) && j < n < |systems| && NoLoss(systems, actions, j)
    requires actions[j].Step? && actions[j].step.Publish? && t !in actions[j].step.dropped
    requires Stays(systems, t, j, n)
    requires var (gw, source) := (systems[j].world.gw, actions[j].step.source);
             || HasRegular(gw.links, source, t)
             || (HasAny(gw.links, t) && source != t && source in Handles(gw.modules))
    ensures var (w, m) := (systems[n].world, actions[j].step.message);
            || DataFrame(actions[j].step.source, m) in w.gw.sockets[t].inbox
            || exists r :: r in w.receipts && r.sink == t && r.cause == |systems[j].world.log| && r.message == m
  {
    var (y, a, i) := (systems[j], actions[j], |systems[j].world.log|);
    StaysUntil(systems, t, j, n);
    RunsAreGood(systems, actions, j);
    RunsAreExact(systems, actions, j);
    RunsAreGood(systems, actions, n);
    assert CanAct(y, a) && systems[j + 1] == Act(y, a);
    PublishedHas(y.world, a.step.source, a.step.message, a.step.dropped, t) by {
      hide WellFormed, Safe, InboxOk, ReceiptOk, LeavingOk, HasRegular, HasAny, Exact, Publishable, DataFrame;
    }
    LogKeeps(systems, actions, j + 1, n);
    HasForGood(systems, actions, j + 1, n, t, i);
    HasMeans(systems[n].world, t, i);
    var log := systems[j + 1].world.log;
    assert log[i].source == a.step.source && log[i].message == a.step.message && i < |log|;
    hide GoodSystem, CanAct, Act, IsSystemRun, Has, DataFrame, HasRegular, HasAny, Handles, Exact;
  }

  lemma {:induction false} LogKeeps(systems: seq<System>, actions: seq<Action>, j: nat, n: nat)
    requires IsSystemRun(systems, actions) && j <= n < |systems|
    ensures systems[j].world.log <= systems[n].world.log
  {
    if n > j {
      LogKeeps(systems, actions, j, n - 1);
      assert CanAct(systems[n - 1], actions[n - 1]) && systems[n] == Act(systems[n - 1], actions[n - 1]);
      LogGrowsAlways(systems[n - 1], actions[n - 1]);
      hide CanAct, Act, IsSystemRun;
    }
  }

  lemma LogGrowsAlways(y: System, a: Action)
    requires CanAct(y, a)
    ensures y.world.log <= Act(y, a).world.log
  {
    hide Receive, DataFrame, Publishable, Apply, Allowed, LeavingAfter;
  }

  /** The module that leaves takes the frames it had and its own quit frame, unless that frame is lost. */
  lemma LeavingIsOffered(w: World, op: Op)
    requires LeavingAfter(w, op).Some?
    ensures var (l, (h, dropped)) := (LeavingAfter(w, op).value, RemovedBy(w.gw, op).value);
            && l.sink == h && h in w.gw.sockets && l.guid == w.gw.sockets[h].guid
            && l.inbox == Offer(w.gw.sockets, QuitFrame(l.guid), dropped)[h].inbox
  {
    var (h, dropped) := RemovedBy(w.gw, op).value;
    QuitFrameMatchesOwn(w.gw.sockets[h]);
    OfferIs(w.gw.sockets, QuitFrame(w.gw.sockets[h].guid), dropped, h);
    hide Matches, QuitFrame, RemovedBy, Offer;
    assert w.gw.sockets[h].inbox + [] == w.gw.sockets[h].inbox;
  }
}
