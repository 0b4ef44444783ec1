/**
 * What the gateway's operations do, as functions on a value: the module and link lists of
 * core/src/gateway_ll.c and the broker's table of receive sockets.  GatewayLL proves the
 * statements of the C functions against these.
 */
module GatewayModel {
  import opened Bytes
  import opened Frames
  import opened PubSubBroker

  datatype ModuleData = ModuleData(name: string, handle: Handle)

  /** A LINK_DATA; AnySource is a link whose source is "*". */
  datatype Link = AnySource(sink: ModuleData) | Regular(source: ModuleData, sink: ModuleData)

  const GATEWAY_ALL := "*"

  /** refs is the broker's reference count; loaded and created count libraries and module instances held. */
  datatype State = State(modules: seq<ModuleData>, links: seq<Link>, sockets: Sockets,
                         refs: int, loaded: int, created: int)

  const INITIAL := State([], [], map[], 1, 0, 0)

  // ----- Lookups -----

  function FindByName(ms: seq<ModuleData>, name: string): (r: Option<ModuleData>)
    ensures r.Some? ==> r.value in ms && r.value.name == name
    ensures r.None? ==> forall m :: m in ms ==> m.name != name
  {
    if ms == [] then None else if ms[0].name == name then Some(ms[0]) else FindByName(ms[1..], name)
  }

  /** The position of the first module with this handle, or the length of the list. */
  function IndexOfHandle(ms: seq<ModuleData>, h: Handle): (i: nat)
    ensures i <= |ms| && (i < |ms| ==> ms[i].handle == h)
    ensures forall k :: 0 <= k < i ==> ms[k].handle != h
  {
    if ms == [] || ms[0].handle == h then 0 else 1 + IndexOfHandle(ms[1..], h)
  }

  /** link_data_find: a "*" source only finds a wildcard link. */
  predicate LinkIs(l: Link, source: string, sink: string) {
    l.sink.name == sink && if source == GATEWAY_ALL then l.AnySource? else l.Regular? && l.source.name == source
  }

  function LinkIndex(ls: seq<Link>, source: string, sink: string): (i: nat)
    ensures i <= |ls| && (i < |ls| ==> LinkIs(ls[i], source, sink))
    ensures forall k :: 0 <= k < i ==> !LinkIs(ls[k], source, sink)
  {
    if ls == [] || LinkIs(ls[0], source, sink) then 0 else 1 + LinkIndex(ls[1..], source, sink)
  }

  /** link_name_both_find */
  predicate Mentions(l: Link, name: string) {
    l.sink.name == name || (l.Regular? && l.source.name == name)
  }

  function Surviving(ls: seq<Link>, name: string): (r: seq<Link>)
    ensures forall l :: l in r <==> l in ls && !Mentions(l, name)
  {
    if ls == [] then []
    else if Mentions(ls[0], name) then Surviving(ls[1..], name)
    else [ls[0]] + Surviving(ls[1..], name)
  }

  predicate HasRegular(ls: seq<Link>, source: Handle, sink: Handle) {
    exists l :: l in ls && l.Regular? && l.source.handle == source && l.sink.handle == sink
  }

  predicate HasAny(ls: seq<Link>, sink: Handle) {
    exists l :: l in ls && l.AnySource? && l.sink.handle == sink
  }

  function Handles(ms: seq<ModuleData>): set<Handle> {
    set m | m in ms :: m.handle
  }

  function Others(ms: seq<ModuleData>, sink: Handle): set<Handle> {
    Handles(ms) - {sink}
  }

  /** The position of the first module whose subscription by the sink is refused, or the length. */
  function FirstRefused(ms: seq<ModuleData>, sink: Handle, refused: set<(Handle, Handle)>): (k: nat)
    ensures k <= |ms| && (k < |ms| ==> ms[k].handle != sink && (ms[k].handle, sink) in refused)
    ensures forall i :: 0 <= i < k ==> ms[i].handle == sink || (ms[i].handle, sink) !in refused
  {
    if ms == [] || (ms[0].handle != sink && (ms[0].handle, sink) in refused) then 0
    else 1 + FirstRefused(ms[1..], sink, refused)
  }

  function SetSubs(s: Sockets, sink: Handle, subs: multiset<Handle>): Sockets
    requires sink in s
  {
    s[sink := s[sink].(subs := subs)]
  }

  /** Removes every subscription to h from the other sockets. */
  function Forget(s: Sockets, h: Handle): Sockets {
    map t | t in s :: if t == h then s[t] else s[t].(subs := s[t].subs[h := 0])
  }

  /** The table after attaching h and subscribing every wildcard sink to it. */
  function Attach(s: Sockets, ls: seq<Link>, h: Handle, guid: Guid): Sockets {
    map t | t in s.Keys + {h} ::
      if t == h then Socket(guid, multiset{}, [])
      else if HasAny(ls, t) then s[t].(subs := s[t].subs + multiset{h})
      else s[t]
  }

  // ----- The operations -----

  /**
   * What the environment does during gateway_addmodule_internal: which allocations and loads
   * succeed, the handle Module_Create returns, the subscriptions the broker refuses and the
   * sockets a quit frame does not reach.
   */
  datatype AddEnv = AddEnv(alloc: bool, load: bool, handle: Handle, guid: Guid, attach: bool, copy: bool,
                           push: bool, refused: set<(Handle, Handle)>, dropped: set<Handle>)

  datatype LinkEnv = LinkEnv(push: bool, refused: set<(Handle, Handle)>)

  predicate AnyRefused(ls: seq<Link>, h: Handle, refused: set<(Handle, Handle)>) {
    exists l :: l in ls && l.AnySource? && (h, l.sink.handle) in refused
  }

  function AddModule(s: State, name: string, env: AddEnv): (State, Handle) {
    if name == GATEWAY_ALL || FindByName(s.modules, name).Some? then (s, NULL)
    else if !env.alloc || !env.load || env.handle == NULL || !env.attach then (s, NULL)
    else if !env.copy || !env.push || AnyRefused(s.links, env.handle, env.refused) then
      // everything is undone; the quit frame of the stopped worker has been offered to the others
      (s.(sockets := Offer(s.sockets, QuitFrame(env.guid), env.dropped)), NULL)
    else
      (s.(modules := s.modules + [ModuleData(name, env.handle)],
          sockets := Attach(s.sockets, s.links, env.handle, env.guid),
          refs := s.refs + 1, loaded := s.loaded + 1, created := s.created + 1),
       env.handle)
  }

  function RemoveModuleAt(s: State, i: nat, dropped: set<Handle>): State
    requires i < |s.modules|
  {
    var m := s.modules[i];
    var forgotten := Forget(s.sockets, m.handle);
    State(s.modules[..i] + s.modules[i + 1..], Surviving(s.links, m.name),
          if m.handle in forgotten then Detach(forgotten, m.handle, dropped) else forgotten,
          s.refs - 1, s.loaded - 1, s.created - 1)
  }

  function RemoveModule(s: State, h: Handle, dropped: set<Handle>): State {
    var i := IndexOfHandle(s.modules, h);
    if i == |s.modules| then s else RemoveModuleAt(s, i, dropped)
  }

  function RemoveModuleByName(s: State, name: string, dropped: set<Handle>): (State, bool) {
    match FindByName(s.modules, name)
    case None => (s, false)
    case Some(m) => (RemoveModule(s, m.handle, dropped), true)
  }

  function AddAnySourceLink(s: State, sink: string, env: LinkEnv): (State, bool) {
    match FindByName(s.modules, sink)
    case None => (s, false)
    case Some(m) =>
      var t := m.handle;
      if !env.push || t !in s.sockets then (s, false)
      else
        var k := FirstRefused(s.modules, t, env.refused);
        if k == |s.modules| then
          (s.(links := s.links + [AnySource(m)],
              sockets := SetSubs(s.sockets, t, s.sockets[t].subs + multiset(Others(s.modules, t)))), true)
        else
          // the rollback also unsubscribes the modules from k on, which the loop had not reached
          (s.(sockets := SetSubs(s.sockets, t, s.sockets[t].subs - multiset(Others(s.modules[k..], t)))), false)
  }

  function AddRegularLink(s: State, source: string, sink: string, env: LinkEnv): (State, bool) {
    match (FindByName(s.modules, source), FindByName(s.modules, sink))
    case (Some(a), Some(b)) =>
      if !env.push || (a.handle, b.handle) in env.refused || b.handle !in s.sockets then (s, false)
      else (s.(links := s.links + [Regular(a, b)], sockets := Subscribe(s.sockets, a.handle, b.handle)), true)
    case _ => (s, false)
  }

  function AddLink(s: State, source: string, sink: string, env: LinkEnv): (State, bool) {
    if LinkIndex(s.links, source, sink) < |s.links| then (s, false)
    else if source == GATEWAY_ALL then AddAnySourceLink(s, sink, env)
    else AddRegularLink(s, source, sink, env)
  }

  function RemoveLinkAt(s: State, i: nat): State
    requires i < |s.links|
  {
    var l := s.links[i];
    var t := l.sink.handle;
    s.(links := s.links[..i] + s.links[i + 1..],
       sockets := if t !in s.sockets then s.sockets
                  else if l.AnySource? then
                    SetSubs(s.sockets, t, s.sockets[t].subs - multiset(Others(s.modules, t)))
                  else Unsubscribe(s.sockets, l.source.handle, t))
  }

  function RemoveLink(s: State, source: string, sink: string): State {
    var i := LinkIndex(s.links, source, sink);
    if i == |s.links| then s else RemoveLinkAt(s, i)
  }

  // ----- What a good state is -----

  ghost predicate UniqueModules(ms: seq<ModuleData>) {
    && (forall i, j :: 0 <= i < j < |ms| ==> ms[i].name != ms[j].name && ms[i].handle != ms[j].handle)
    && (forall m :: m in ms ==> m.name != GATEWAY_ALL && m.handle != NULL)
  }

  ghost predicate UniqueLinks(ls: seq<Link>) {
    forall i, j :: 0 <= i < j < |ls| ==> ls[i] != ls[j]
  }

  ghost predicate LiveLinks(ls: seq<Link>, ms: seq<ModuleData>) {
    forall l :: l in ls ==> l.sink in ms && (l.Regular? ==> l.source in ms)
  }

  ghost predicate WellFormed(s: State) {
    && UniqueModules(s.modules)
    && UniqueLinks(s.links) && LiveLinks(s.links, s.modules)
    && s.sockets.Keys == Handles(s.modules)
    && s.refs == 1 + |s.modules| && s.loaded == |s.modules| && s.created == |s.modules|
  }

  /** How often the sink should be subscribed to the source, read off the link graph. */
  function Expected(s: State, source: Handle, sink: Handle): nat {
    (if HasRegular(s.links, source, sink) then 1 else 0)
    + (if HasAny(s.links, sink) && source != sink && source in Handles(s.modules) then 1 else 0)
  }

  /** How many subscriptions the link graph asks for beyond those the broker holds. */
  function Deficit(s: State, source: Handle, sink: Handle): int
    requires sink in s.sockets
  {
    Expected(s, source, sink) - s.sockets[sink].subs[source]
  }

  /** The routing table of the broker is the one the link graph asks for. */
  ghost predicate Exact(s: State) {
    forall t, a :: t in s.sockets ==> Deficit(s, a, t) == 0
  }

  /** The routing table never has more than the link graph asks for. */
  ghost predicate Safe(s: State) {
    forall t, a :: t in s.sockets ==> Deficit(s, a, t) >= 0
  }

  /** Same modules, links, subscriptions and counts; only frames waiting in inboxes may differ. */
  ghost predicate SameRouting(s: State, r: State) {
    && r == s.(sockets := r.sockets)
    && r.sockets.Keys == s.sockets.Keys
    && forall t :: t in s.sockets ==> r.sockets[t].subs == s.sockets[t].subs && r.sockets[t].guid == s.sockets[t].guid
  }

  // ----- Adding a module -----

  lemma SameRoutingKeeps(s: State, r: State)
    requires SameRouting(s, r)
    ensures WellFormed(s) ==> WellFormed(r)
    ensures Safe(s) <==> Safe(r)
    ensures Exact(s) <==> Exact(r)
  {
    hide HasRegular, HasAny;
    forall t, a | t in s.sockets ensures Deficit(r, a, t) == Deficit(s, a, t) {}
  }

  /** A failed addition leaves modules, links, subscriptions and every count as they were. */
  lemma FailedAddModuleChangesNothing(s: State, name: string, env: AddEnv)
    requires AddModule(s, name, env).1 == NULL
    ensures SameRouting(s, AddModule(s, name, env).0)
  {
    hide Matches;
  }

  lemma FailedAddIsSameRouting(s: State, name: string, env: AddEnv)
    ensures SameRouting(s, s)
    ensures AddModule(s, name, env).1 == NULL ==> SameRouting(s, AddModule(s, name, env).0)
  {
    if AddModule(s, name, env).1 == NULL {
      FailedAddModuleChangesNothing(s, name, env);
    }
    hide AddModule;
  }

  lemma DeadHandleUnlinked(s: State, h: Handle)
    requires LiveLinks(s.links, s.modules) && h !in Handles(s.modules)
    ensures forall t :: !HasRegular(s.links, h, t) && !HasRegular(s.links, t, h)
    ensures !HasAny(s.links, h)
  {
  }

  lemma AddedModuleWellFormed(s: State, name: string, env: AddEnv)
    requires WellFormed(s) && env.handle !in Handles(s.modules) && AddModule(s, name, env).1 != NULL
    ensures WellFormed(AddModule(s, name, env).0)
  {
  }

  /** A module is added with exactly the subscriptions the wildcard links ask for. */
  lemma AddModuleKeeps(s: State, name: string, env: AddEnv)
    requires WellFormed(s) && Safe(s) && env.handle !in Handles(s.modules)
    ensures WellFormed(AddModule(s, name, env).0) && Safe(AddModule(s, name, env).0)
    ensures Exact(s) ==> Exact(AddModule(s, name, env).0)
  {
    var (r, h) := AddModule(s, name, env);
    if h == NULL {
      FailedAddModuleChangesNothing(s, name, env);
      SameRoutingKeeps(s, r);
    } else {
      AddedModuleWellFormed(s, name, env);
      DeadHandleUnlinked(s, h);
      hide HasRegular, HasAny, WellFormed;
      assert Handles(r.modules) == Handles(s.modules) + {h};
      forall t, a | t in r.sockets
        ensures Deficit(r, a, t) == if t == h then 0 else Deficit(s, a, t)
      {
        if t != h {
          assert Deficit(s, h, t) >= 0;
        }
      }
    }
  }

  // ----- Adding a link -----

  lemma LinksAppend(ls: seq<Link>, l: Link, a: Handle, t: Handle)
    ensures HasRegular(ls + [l], a, t) <==>
            HasRegular(ls, a, t) || (l.Regular? && l.source.handle == a && l.sink.handle == t)
    ensures HasAny(ls + [l], t) <==> HasAny(ls, t) || (l.AnySource? && l.sink.handle == t)
  {
    assert forall x :: x in ls + [l] <==> x in ls || x == l;
    assert l in ls + [l];
  }

  /** Handles and names of live modules determine each other. */
  lemma SameModule(ms: seq<ModuleData>, m: ModuleData, n: ModuleData)
    requires UniqueModules(ms) && m in ms && n in ms
    ensures m == n <==> m.handle == n.handle
    ensures m == n <==> m.name == n.name
  {
    var i :| 0 <= i < |ms| && ms[i] == m;
    var j :| 0 <= j < |ms| && ms[j] == n;
  }

  /** A link the search by names did not find is not in the graph at all. */
  lemma NewRegular(s: State, a: ModuleData, b: ModuleData)
    requires WellFormed(s) && a in s.modules && b in s.modules && a.name != GATEWAY_ALL
    requires LinkIndex(s.links, a.name, b.name) == |s.links|
    ensures !HasRegular(s.links, a.handle, b.handle)
  {
    forall l | l in s.links && l.Regular? ensures !(l.source.handle == a.handle && l.sink.handle == b.handle) {
      SameModule(s.modules, l.source, a);
      SameModule(s.modules, l.sink, b);
      var i :| 0 <= i < |s.links| && s.links[i] == l;
      assert !LinkIs(s.links[i], a.name, b.name);
    }
  }

  lemma NewAny(s: State, b: ModuleData)
    requires WellFormed(s) && b in s.modules
    requires LinkIndex(s.links, GATEWAY_ALL, b.name) == |s.links|
    ensures !HasAny(s.links, b.handle)
  {
    forall l | l in s.links && l.AnySource? ensures l.sink.handle != b.handle {
      SameModule(s.modules, l.sink, b);
      var i :| 0 <= i < |s.links| && s.links[i] == l;
      assert !LinkIs(s.links[i], GATEWAY_ALL, b.name);
    }
  }

  /** Appending a link that is not there, with its subscriptions, leaves every deficit as it was. */
  lemma LinkAdded(s: State, l: Link, subs: multiset<Handle>, t: Handle, a: Handle)
    requires t in s.sockets && l.sink.handle in s.sockets
    requires subs == s.sockets[l.sink.handle].subs
                     + if l.Regular? then multiset{l.source.handle} else multiset(Others(s.modules, l.sink.handle))
    requires if l.Regular? then !HasRegular(s.links, l.source.handle, l.sink.handle)
             else !HasAny(s.links, l.sink.handle)
    ensures Deficit(s.(links := s.links + [l], sockets := SetSubs(s.sockets, l.sink.handle, subs)), a, t)
         == Deficit(s, a, t)
  {
    LinksAppend(s.links, l, a, t);
    hide HasRegular, HasAny, Handles;
  }

  lemma LinkAddedKeeps(s: State, l: Link, subs: multiset<Handle>)
    requires WellFormed(s) && l.sink in s.modules && (l.Regular? ==> l.source in s.modules)
    requires subs == s.sockets[l.sink.handle].subs
                     + if l.Regular? then multiset{l.source.handle} else multiset(Others(s.modules, l.sink.handle))
    requires if l.Regular? then !HasRegular(s.links, l.source.handle, l.sink.handle)
             else !HasAny(s.links, l.sink.handle)
    ensures var r := s.(links := s.links + [l], sockets := SetSubs(s.sockets, l.sink.handle, subs));
            WellFormed(r) && (Safe(s) ==> Safe(r)) && (Exact(s) ==> Exact(r))
  {
    var r := s.(links := s.links + [l], sockets := SetSubs(s.sockets, l.sink.handle, subs));
    assert WellFormed(r) by { assert l !in s.links; hide Deficit; }
    hide WellFormed, Deficit, HasRegular, HasAny;
    forall t, a | t in r.sockets ensures Deficit(r, a, t) == Deficit(s, a, t) {
      LinkAdded(s, l, subs, t, a);
    }
  }

  lemma AddRegularKeeps(s: State, source: string, sink: string, env: LinkEnv)
    requires WellFormed(s) && Safe(s)
    requires source != GATEWAY_ALL && LinkIndex(s.links, source, sink) == |s.links|
    ensures WellFormed(AddRegularLink(s, source, sink, env).0) && Safe(AddRegularLink(s, source, sink, env).0)
    ensures Exact(s) ==> Exact(AddRegularLink(s, source, sink, env).0)
    ensures !AddRegularLink(s, source, sink, env).1 ==> AddRegularLink(s, source, sink, env).0 == s
  {
    if AddRegularLink(s, source, sink, env).1 {
      var a := FindByName(s.modules, source).value;
      var b := FindByName(s.modules, sink).value;
      NewRegular(s, a, b);
      LinkAddedKeeps(s, Regular(a, b), s.sockets[b.handle].subs + multiset{a.handle});
    }
    hide WellFormed, Exact, Safe;
  }

  /** The subscriptions a failed wildcard addition takes away although it never made them. */
  ghost predicate Lossy(s: State, sink: string, env: LinkEnv) {
    && LinkIndex(s.links, GATEWAY_ALL, sink) == |s.links|
    && env.push
    && FindByName(s.modules, sink).Some?
    && var t := FindByName(s.modules, sink).value.handle;
       exists a :: a in Others(s.modules[FirstRefused(s.modules, t, env.refused)..], t) && HasRegular(s.links, a, t)
  }

  /**
   * Adding a wildcard link always stays safe; it stays exact unless it fails at some module k and
   * a module from k on has a regular link to the same sink.
   */
  lemma AddAnySourceKeeps(s: State, sink: string, env: LinkEnv)
    requires WellFormed(s) && Safe(s) && LinkIndex(s.links, GATEWAY_ALL, sink) == |s.links|
    ensures WellFormed(AddAnySourceLink(s, sink, env).0) && Safe(AddAnySourceLink(s, sink, env).0)
    ensures Exact(s) ==> (Exact(AddAnySourceLink(s, sink, env).0) <==> !Lossy(s, sink, env))
  {
    if env.push && FindByName(s.modules, sink).Some? {
      var m := FindByName(s.modules, sink).value;
      NewAny(s, m);
      var k := FirstRefused(s.modules, m.handle, env.refused);
      if k == |s.modules| {
        LinkAddedKeeps(s, AnySource(m), s.sockets[m.handle].subs + multiset(Others(s.modules, m.handle)));
      } else {
        AnySourceRolledBack(s, m.handle, k);
      }
    }
    hide WellFormed, Exact, Safe, HasRegular, HasAny;
  }

  /** Unsubscribing a set of sources once adds one to the deficit of those that were subscribed. */
  lemma TakenDeficit(s: State, t: Handle, taken: set<Handle>, u: Handle, a: Handle)
    requires t in s.sockets && u in s.sockets
    ensures Deficit(s.(sockets := SetSubs(s.sockets, t, s.sockets[t].subs - multiset(taken))), a, u)
         == Deficit(s, a, u) + if u == t && a in taken && s.sockets[u].subs[a] > 0 then 1 else 0
  {
    hide HasRegular, HasAny, Handles;
  }

  /** The table after unsubscribing t from a set of sources once, whether it was subscribed or not. */
  function Taken(s: State, t: Handle, taken: set<Handle>): State
    requires t in s.sockets
  {
    s.(sockets := SetSubs(s.sockets, t, s.sockets[t].subs - multiset(taken)))
  }

  lemma TakenExactIff(s: State, t: Handle, taken: set<Handle>)
    requires Safe(s) && t in s.sockets
    requires forall a :: a in taken ==> Expected(s, a, t) == if HasRegular(s.links, a, t) then 1 else 0
    ensures Safe(Taken(s, t, taken))
    ensures Exact(s) ==> (Exact(Taken(s, t, taken)) <==> forall a :: a in taken ==> !HasRegular(s.links, a, t))
  {
    var r := Taken(s, t, taken);
    forall u, x | u in r.sockets
      ensures Deficit(s, x, u) >= 0
      ensures Deficit(r, x, u) == Deficit(s, x, u) + if u == t && x in taken && s.sockets[u].subs[x] > 0 then 1 else 0
    {
      TakenDeficit(s, t, taken, u, x);
      hide Expected, SetSubs;
    }
    forall x | Exact(s) && x in taken ensures s.sockets[t].subs[x] == if HasRegular(s.links, x, t) then 1 else 0 {
      assert Deficit(s, x, t) == 0;
      hide HasRegular;
    }
    hide Deficit, HasRegular;
  }

  lemma AnySourceRolledBack(s: State, t: Handle, k: nat)
    requires WellFormed(s) && Safe(s) && t in s.sockets && !HasAny(s.links, t) && k < |s.modules|
    ensures var r := s.(sockets := SetSubs(s.sockets, t, s.sockets[t].subs - multiset(Others(s.modules[k..], t))));
            && WellFormed(r) && Safe(r)
            && (Exact(s) ==> (Exact(r) <==> !exists a :: a in Others(s.modules[k..], t) && HasRegular(s.links, a, t)))
  {
    assert WellFormed(Taken(s, t, Others(s.modules[k..], t))) by { hide Safe, Others; }
    TakenExactIff(s, t, Others(s.modules[k..], t));
    hide WellFormed, Safe, Exact, HasRegular, Others, SetSubs;
  }

  // ----- Removing a link -----

  lemma LinksRemove(ls: seq<Link>, i: nat)
    requires i < |ls| && UniqueLinks(ls)
    ensures UniqueLinks(ls[..i] + ls[i + 1..])
    ensures forall l :: l in ls[..i] + ls[i + 1..] <==> l in ls && l != ls[i]
  {
    var r := ls[..i] + ls[i + 1..];
    assert forall k :: 0 <= k < |r| ==> r[k] == ls[if k < i then k else k + 1];
    forall l | l in ls && l != ls[i] ensures l in r {
      var k :| 0 <= k < |ls| && ls[k] == l;
      assert r[if k < i then k else k - 1] == l;
    }
  }

  /** What the graph looks like after one link is gone. */
  lemma LinksAfterRemove(s: State, i: nat, a: Handle, t: Handle)
    requires WellFormed(s) && i < |s.links|
    ensures var l := s.links[i];
            var r := s.links[..i] + s.links[i + 1..];
            && (HasRegular(r, a, t) <==>
                HasRegular(s.links, a, t) && !(l.Regular? && l.source.handle == a && l.sink.handle == t))
            && (HasAny(r, t) <==> HasAny(s.links, t) && !(l.AnySource? && l.sink.handle == t))
  {
    var l := s.links[i];
    var r := s.links[..i] + s.links[i + 1..];
    LinksRemove(s.links, i);
    forall x | x in s.links && (x.Regular? <==> l.Regular?) && x.sink.handle == l.sink.handle
               && (x.Regular? ==> x.source.handle == l.source.handle)
      ensures x == l
    {
      SameModule(s.modules, x.sink, l.sink);
      if x.Regular? {
        SameModule(s.modules, x.source, l.source);
      }
    }
  }

  lemma RemoveLinkAtWellFormed(s: State, i: nat)
    requires WellFormed(s) && i < |s.links|
    ensures WellFormed(RemoveLinkAt(s, i))
  {
    LinksRemove(s.links, i);
    assert s.links[i] in s.links;
    hide HasRegular, HasAny;
  }

  lemma RemoveLinkAtDeficit(s: State, i: nat, t: Handle, a: Handle)
    requires WellFormed(s) && i < |s.links| && t in s.sockets && Deficit(s, a, t) >= 0
    ensures 0 <= Deficit(RemoveLinkAt(s, i), a, t) <= Deficit(s, a, t)
  {
    LinksAfterRemove(s, i, a, t);
    LinkPresent(s, i);
    hide HasRegular, HasAny, Handles, UniqueLinks, UniqueModules, LiveLinks;
  }

  /** Removing a link takes away exactly its own subscriptions, also where links overlap on a pair. */
  lemma RemoveLinkAtKeeps(s: State, i: nat)
    requires WellFormed(s) && Safe(s) && i < |s.links|
    ensures WellFormed(RemoveLinkAt(s, i)) && Safe(RemoveLinkAt(s, i))
    ensures Exact(s) ==> Exact(RemoveLinkAt(s, i))
  {
    var r := RemoveLinkAt(s, i);
    RemoveLinkAtWellFormed(s, i);
    assert r.sockets.Keys == s.sockets.Keys;
    hide Deficit, WellFormed, RemoveLinkAt;
    forall t, a | t in r.sockets ensures 0 <= Deficit(r, a, t) <= Deficit(s, a, t) {
      RemoveLinkAtDeficit(s, i, t, a);
    }
  }

  lemma LinkPresent(s: State, i: nat)
    requires i < |s.links|
    ensures s.links[i].AnySource? ==> HasAny(s.links, s.links[i].sink.handle)
    ensures s.links[i].Regular? ==> HasRegular(s.links, s.links[i].source.handle, s.links[i].sink.handle)
  {
    assert s.links[i] in s.links;
  }

  // ----- Removing a module -----

  lemma {:induction false} SurvivingUnique(ls: seq<Link>, name: string)
    requires UniqueLinks(ls)
    ensures UniqueLinks(Surviving(ls, name))
  {
    if ls != [] {
      assert forall i :: 0 <= i < |ls[1..]| ==> ls[1..][i] == ls[i + 1];
      SurvivingUnique(ls[1..], name);
      assert ls[0] !in ls[1..];
      assert ls[0] !in Surviving(ls[1..], name);
    }
  }

  lemma ModulesRemove(ms: seq<ModuleData>, i: nat)
    requires i < |ms| && UniqueModules(ms)
    ensures UniqueModules(ms[..i] + ms[i + 1..])
    ensures forall m :: m in ms[..i] + ms[i + 1..] <==> m in ms && m != ms[i]
    ensures Handles(ms[..i] + ms[i + 1..]) == Handles(ms) - {ms[i].handle}
  {
    var r := ms[..i] + ms[i + 1..];
    assert forall k :: 0 <= k < |r| ==> r[k] == ms[if k < i then k else k + 1];
    forall m | m in ms && m != ms[i] ensures m in r {
      var k :| 0 <= k < |ms| && ms[k] == m;
      assert r[if k < i then k else k - 1] == m;
    }
    forall m | m in ms && m != ms[i] ensures m.handle != ms[i].handle {
      SameModule(ms, m, ms[i]);
    }
  }

  /** The subscriptions of the sockets that stay, after a removal. */
  lemma RemovedSubs(s: State, i: nat, dropped: set<Handle>)
    requires WellFormed(s) && i < |s.modules|
    ensures var (r, h) := (RemoveModuleAt(s, i, dropped), s.modules[i].handle);
            && r.sockets.Keys == s.sockets.Keys - {h}
            && forall t, a :: t in r.sockets ==> r.sockets[t].subs[a] == if a == h then 0 else s.sockets[t].subs[a]
  {
    hide Matches, UniqueModules, UniqueLinks, LiveLinks;
    assert s.modules[i] in s.modules;
  }

  /** The link graph as the remaining modules see it. */
  lemma RemovedGraph(s: State, i: nat, a: Handle, t: Handle)
    requires WellFormed(s) && i < |s.modules| && a != s.modules[i].handle && t != s.modules[i].handle
    ensures HasRegular(Surviving(s.links, s.modules[i].name), a, t) <==> HasRegular(s.links, a, t)
    ensures HasAny(Surviving(s.links, s.modules[i].name), t) <==> HasAny(s.links, t)
  {
    var m := s.modules[i];
    forall l | l in s.links && (l.sink.handle == t && (l.Regular? ==> l.source.handle == a))
      ensures !Mentions(l, m.name)
    {
      SameModule(s.modules, l.sink, m);
      if l.Regular? { SameModule(s.modules, l.source, m); }
    }
  }

  lemma RemovedWellFormed(s: State, i: nat, dropped: set<Handle>)
    requires WellFormed(s) && i < |s.modules|
    ensures WellFormed(RemoveModuleAt(s, i, dropped))
  {
    var m := s.modules[i];
    RemovedSubs(s, i, dropped);
    ModulesRemove(s.modules, i);
    SurvivingUnique(s.links, m.name);
    hide UniqueModules, UniqueLinks, Forget, Handles, Matches;
    forall l | l in Surviving(s.links, m.name)
      ensures l.sink in s.modules && l.sink != m
      ensures l.Regular? ==> l.source in s.modules && l.source != m
    {
    }
  }

  /**
   * Removing a module removes exactly the links naming it and every subscription to or from it;
   * what remains keeps its subscriptions, and what the remaining graph asks for does not change.
   */
  lemma RemoveModuleKeeps(s: State, i: nat, dropped: set<Handle>)
    requires WellFormed(s) && Safe(s) && i < |s.modules|
    ensures WellFormed(RemoveModuleAt(s, i, dropped)) && Safe(RemoveModuleAt(s, i, dropped))
    ensures Exact(s) ==> Exact(RemoveModuleAt(s, i, dropped))
    ensures var (r, m) := (RemoveModuleAt(s, i, dropped), s.modules[i]);
            && m.handle !in r.sockets
            && (forall l :: l in r.links <==> l in s.links && !Mentions(l, m.name))
            && (forall t, a :: t in r.sockets ==>
                  && r.sockets[t].subs[a] == (if a == m.handle then 0 else s.sockets[t].subs[a])
                  && Expected(r, a, t) == (if a == m.handle then 0 else Expected(s, a, t)))
  {
    var (r, m) := (RemoveModuleAt(s, i, dropped), s.modules[i]);
    RemovedSubs(s, i, dropped);
    RemovedWellFormed(s, i, dropped);
    hide WellFormed, Exact, Safe, Expected, Mentions;
    forall t, a | t in r.sockets
      ensures Expected(r, a, t) == if a == m.handle then 0 else Expected(s, a, t)
    {
      RemovedExpected(s, i, dropped, t, a);
    }
    hide Forget, Detach;
    DeficitsDecide(s, r, m.handle);
  }

  lemma DeficitsDecide(s: State, r: State, h: Handle)
    requires forall t :: t in r.sockets ==> t in s.sockets
    requires forall t, a :: t in r.sockets ==> Deficit(r, a, t) == if a == h then 0 else Deficit(s, a, t)
    ensures Safe(s) ==> Safe(r)
    ensures Exact(s) ==> Exact(r)
  {
    hide Deficit;
  }

  lemma RemovedExpected(s: State, i: nat, dropped: set<Handle>, t: Handle, a: Handle)
    requires WellFormed(s) && i < |s.modules| && t != s.modules[i].handle
    ensures Expected(RemoveModuleAt(s, i, dropped), a, t)
         == if a == s.modules[i].handle then 0 else Expected(s, a, t)
  {
    var (r, m) := (RemoveModuleAt(s, i, dropped), s.modules[i]);
    RemovedWellFormed(s, i, dropped);
    ModulesRemove(s.modules, i);
    assert r.modules == s.modules[..i] + s.modules[i + 1..] && r.links == Surviving(s.links, m.name);
    if a == m.handle {
      DeadHandleUnlinked(r, m.handle);
    } else {
      RemovedGraph(s, i, a, t);
    }
    hide RemoveModuleAt, HasRegular, HasAny, Handles, UniqueModules, UniqueLinks, LiveLinks;
  }

  // ----- Runs -----

  datatype Op =
    | OpAddModule(name: string, env: AddEnv)
    | OpRemoveModule(handle: Handle, dropped: set<Handle>)
    | OpRemoveModuleByName(name: string, dropped: set<Handle>)
    | OpAddLink(source: string, sink: string, linkEnv: LinkEnv)
    | OpRemoveLink(source: string, sink: string)

  /** Module_Create returns a handle no live module has. */
  predicate Allowed(s: State, op: Op) {
    op.OpAddModule? ==> op.env.handle !in Handles(s.modules)
  }

  function Apply(s: State, op: Op): State {
    match op
    case OpAddModule(name, env) => AddModule(s, name, env).0
    case OpRemoveModule(h, dropped) => RemoveModule(s, h, dropped)
    case OpRemoveModuleByName(name, dropped) => RemoveModuleByName(s, name, dropped).0
    case OpAddLink(source, sink, env) => AddLink(s, source, sink, env).0
    case OpRemoveLink(source, sink) => RemoveLink(s, source, sink)
  }

  ghost predicate LossyOp(s: State, op: Op) {
    op.OpAddLink? && op.source == GATEWAY_ALL && Lossy(s, op.sink, op.linkEnv)
  }

  /** Every operation, whatever fails in it, keeps the state well formed and the routing safe. */
  lemma ApplyKeeps(s: State, op: Op)
    requires WellFormed(s) && Safe(s) && Allowed(s, op)
    ensures WellFormed(Apply(s, op)) && Safe(Apply(s, op))
    ensures Exact(s) ==> (Exact(Apply(s, op)) <==> !LossyOp(s, op))
  {
    hide WellFormed, Safe, Exact, Lossy;
    match op
    case OpAddModule(name, env) => AddModuleKeeps(s, name, env);
    case OpRemoveModule(h, dropped) =>
      var i := IndexOfHandle(s.modules, h);
      if i < |s.modules| { RemoveModuleKeeps(s, i, dropped); }
    case OpRemoveModuleByName(name, dropped) =>
      if FindByName(s.modules, name).Some? {
        var i := IndexOfHandle(s.modules, FindByName(s.modules, name).value.handle);
        if i < |s.modules| { RemoveModuleKeeps(s, i, dropped); }
      }
    case OpAddLink(source, sink, env) =>
      if LinkIndex(s.links, source, sink) == |s.links| {
        if source == GATEWAY_ALL { AddAnySourceKeeps(s, sink, env); } else { AddRegularKeeps(s, source, sink, env); }
      } else {
        NotLossy(s, source, sink, env);
      }
    case OpRemoveLink(source, sink) =>
      var i := LinkIndex(s.links, source, sink);
      if i < |s.links| { RemoveLinkAtKeeps(s, i); }
  }

  lemma NotLossy(s: State, source: string, sink: string, env: LinkEnv)
    requires LinkIndex(s.links, source, sink) < |s.links|
    ensures source == GATEWAY_ALL ==> !Lossy(s, sink, env)
  {
  }

  /** A run from a new gateway: states[i + 1] is states[i] after ops[i]. */
  ghost predicate IsRun(states: seq<State>, ops: seq<Op>) {
    && |states| == |ops| + 1 && states[0] == INITIAL
    && forall i :: 0 <= i < |ops| ==> Allowed(states[i], ops[i]) && states[i + 1] == Apply(states[i], ops[i])
  }

  /** Every state of every run is well formed and routes nothing the link graph does not ask for. */
  lemma {:induction false} RunsAreSafe(states: seq<State>, ops: seq<Op>, n: nat)
    requires IsRun(states, ops) && n < |states|
    ensures WellFormed(states[n]) && Safe(states[n])
  {
    if n > 0 {
      RunsAreSafe(states, ops, n - 1);
      ApplyKeeps(states[n - 1], ops[n - 1]);
      hide WellFormed, Safe, Allowed, Apply;
      assert Allowed(states[n - 1], ops[n - 1]);
    }
  }

  /** As long as no wildcard addition fails on an overlap, routing table and link graph agree. */
  lemma {:induction false} RunsAreExact(states: seq<State>, ops: seq<Op>, n: nat)
    requires IsRun(states, ops) && n < |states|
    requires forall i :: 0 <= i < n ==> !LossyOp(states[i], ops[i])
    ensures Exact(states[n])
  {
    if n > 0 {
      RunsAreExact(states, ops, n - 1);
      RunsAreSafe(states, ops, n - 1);
      hide WellFormed, Safe, Exact, Allowed, Apply, LossyOp;
      assert Allowed(states[n - 1], ops[n - 1]);
      ApplyKeeps(states[n - 1], ops[n - 1]);
    }
  }

  // ----- When a failed wildcard addition is exact -----

  /** FirstRefused stops at the only module whose subscription is refused. */
  lemma {:induction false} OnlyRefused(ms: seq<ModuleData>, t: Handle, a: Handle)
    requires a in Handles(ms) && a != t
    ensures a in Others(ms[FirstRefused(ms, t, {(a, t)})..], t)
  {
    var k := FirstRefused(ms, t, {(a, t)});
    var m :| m in ms && m.handle == a;
    var j :| 0 <= j < |ms| && ms[j] == m;
    assert k <= j && ms[k..][j - k] == m;
  }

  /**
   * A caller can tell beforehand: adding "*" -> sink keeps the routing exact whatever the broker
   * refuses, if and only if no other module has a regular link to the sink.
   */
  lemma WildcardAlwaysExactIff(s: State, sink: ModuleData)
    requires WellFormed(s) && Safe(s) && Exact(s) && sink in s.modules
    requires LinkIndex(s.links, GATEWAY_ALL, sink.name) == |s.links|
    ensures (forall env :: Exact(AddLink(s, GATEWAY_ALL, sink.name, env).0))
       <==> !exists a :: a in Others(s.modules, sink.handle) && HasRegular(s.links, a, sink.handle)
  {
    var t := sink.handle;
    var found := FindByName(s.modules, sink.name).value;
    SameModule(s.modules, found, sink);
    if a :| a in Others(s.modules, t) && HasRegular(s.links, a, t) {
      var env := LinkEnv(true, {(a, t)});
      OnlyRefused(s.modules, t, a);
      assert Lossy(s, sink.name, env);
      AddAnySourceKeeps(s, sink.name, env);
      hide WellFormed, Safe, Exact, Lossy, HasRegular;
      assert !Exact(AddLink(s, GATEWAY_ALL, sink.name, env).0);
    } else {
      forall env ensures Exact(AddLink(s, GATEWAY_ALL, sink.name, env).0) {
        var k := FirstRefused(s.modules, t, env.refused);
        forall a | a in Others(s.modules[k..], t) ensures a in Others(s.modules, t) {}
        AddAnySourceKeeps(s, sink.name, env);
        hide WellFormed, Safe, Exact, HasRegular;
        assert !Lossy(s, sink.name, env);
      }
    }
  }

  // The loss is real: modules a and b, a link a -> b, then a wildcard link to b whose first
  // subscription is refused.

  const DEMO_A := ModuleData("a", 1)
  const DEMO_B := ModuleData("b", 2)

  function DemoAdd(m: ModuleData, g: Guid): Op {
    OpAddModule(m.name, AddEnv(true, true, m.handle, g, true, true, true, {}, {}))
  }

  function DemoOne(g: Guid): State {
    State([DEMO_A], [], map[1 := Socket(g, multiset{}, [])], 2, 1, 1)
  }

  function DemoTwo(g: Guid): State {
    State([DEMO_A, DEMO_B], [],
          map[1 := Socket(g, multiset{}, []), 2 := Socket(g, multiset{}, [])], 3, 2, 2)
  }

  function DemoLinked(g: Guid, subs: multiset<Handle>): State {
    State([DEMO_A, DEMO_B], [Regular(DEMO_A, DEMO_B)],
          map[1 := Socket(g, multiset{}, []), 2 := Socket(g, subs, [])], 3, 2, 2)
  }

  lemma DemoAddModules(g: Guid)
    ensures Apply(INITIAL, DemoAdd(DEMO_A, g)) == DemoOne(g)
    ensures Apply(DemoOne(g), DemoAdd(DEMO_B, g)) == DemoTwo(g)
  {
    hide Matches, QuitFrame;
    assert [DEMO_A] + [DEMO_B] == [DEMO_A, DEMO_B];
    assert Attach(INITIAL.sockets, [], 1, g) == DemoOne(g).sockets;
    assert Attach(DemoOne(g).sockets, [], 2, g) == DemoTwo(g).sockets;
  }

  lemma DemoAddLinks(g: Guid)
    ensures Apply(DemoTwo(g), OpAddLink("a", "b", LinkEnv(true, {}))) == DemoLinked(g, multiset{1})
    ensures Apply(DemoLinked(g, multiset{1}), OpAddLink("*", "b", LinkEnv(true, {(1, 2)}))) == DemoLinked(g, multiset{})
  {
    var ms := [DEMO_A, DEMO_B];
    assert ms[0..] == ms && ms[1..] == [DEMO_B];
    assert FindByName(ms, "b") == Some(DEMO_B);
    assert DEMO_A in ms;
    assert Others(ms, 2) == {1};
    assert FirstRefused(ms, 2, {(1, 2)}) == 0;
    var (before, after) := (DemoLinked(g, multiset{1}), DemoLinked(g, multiset{}));
    assert LinkIndex(before.links, "*", "b") == 1;
    assert before.sockets[2].subs - multiset(Others(ms[0..], 2)) == multiset{};
    assert SetSubs(before.sockets, 2, multiset{}) == after.sockets;
    var none: multiset<Handle> := multiset{};
    assert none + multiset{1} == multiset{1};
    assert Subscribe(DemoTwo(g).sockets, 1, 2) == before.sockets;
  }

  lemma DemoAllowed(g: Guid)
    ensures Allowed(INITIAL, DemoAdd(DEMO_A, g)) && Allowed(DemoOne(g), DemoAdd(DEMO_B, g))
  {
  }

  lemma DemoLost(g: Guid)
    ensures HasRegular(DemoLinked(g, multiset{}).links, 1, 2) && !Exact(DemoLinked(g, multiset{}))
  {
    var s := DemoLinked(g, multiset{});
    assert Regular(DEMO_A, DEMO_B) in s.links;
    assert Deficit(s, 1, 2) >= 1;
  }

  /** After this run a regular link is in the graph but its subscription is gone. */
  lemma RollbackLosesSubscription(g: Guid) returns (states: seq<State>, ops: seq<Op>)
    ensures IsRun(states, ops) && |ops| == 4
    ensures HasRegular(states[4].links, 1, 2)
    ensures 2 in states[4].sockets && states[4].sockets[2].subs[1] == 0
    ensures !Exact(states[4])
  {
    DemoAddModules(g);
    DemoAddLinks(g);
    DemoAllowed(g);
    DemoLost(g);
    hide Apply, DemoOne, DemoTwo, DemoAdd, Exact, HasRegular, Handles;
    states := [INITIAL, DemoOne(g), DemoTwo(g), DemoLinked(g, multiset{1}), DemoLinked(g, multiset{})];
    ops := [DemoAdd(DEMO_A, g), DemoAdd(DEMO_B, g),
            OpAddLink("a", "b", LinkEnv(true, {})), OpAddLink("*", "b", LinkEnv(true, {(1, 2)}))];
  }
}
