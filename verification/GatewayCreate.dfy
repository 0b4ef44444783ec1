/** Gateway_LL_Create (core/src/gateway_ll.c): a gateway with all its modules and links, or none. */
module GatewayCreate {
  import opened Bytes
  import opened Frames
  import opened PubSubBroker
  import opened GatewayModel
  import opened GatewayLL

  /** A GATEWAY_MODULES_ENTRY and what happens while it is added. */
  datatype ModuleEntry = ModuleEntry(path: Option<string>, name: Option<string>, env: AddEnv)

  /** A GATEWAY_LINK_ENTRY and what happens while it is added. */
  datatype LinkEntry = LinkEntry(source: string, sink: string, env: LinkEnv)

  /** Module_Create returns a new handle each time, or NULL. */
  predicate FreshHandles(es: seq<ModuleEntry>) {
    forall i, j :: 0 <= i < j < |es| ==> es[i].env.handle == NULL || es[i].env.handle != es[j].env.handle
  }

  function AddEntry(s: State, e: ModuleEntry): (State, bool) {
    if e.path == None || e.name == None then (s, false)
    else
      var (r, h) := AddModule(s, e.name.value, e.env);
      (r, h != NULL)
  }

  /** The entries are added in order until one fails. */
  function AddEntries(s: State, es: seq<ModuleEntry>): (State, bool)
    decreases |es|
  {
    if es == [] then (s, true)
    else
      var (r, ok) := AddEntry(s, es[0]);
      if ok then AddEntries(r, es[1..]) else (r, false)
  }

  function AddLinks(s: State, ls: seq<LinkEntry>): (State, bool)
    decreases |ls|
  {
    if ls == [] then (s, true)
    else
      var (r, ok) := AddLink(s, ls[0].source, ls[0].sink, ls[0].env);
      if ok then AddLinks(r, ls[1..]) else (r, false)
  }

  function Build(es: seq<ModuleEntry>, ls: seq<LinkEntry>): (State, bool) {
    var (s, ok) := AddEntries(INITIAL, es);
    if ok then AddLinks(s, ls) else (s, false)
  }

  ghost predicate Unused(s: State, es: seq<ModuleEntry>) {
    forall i :: 0 <= i < |es| ==> es[i].env.handle !in Handles(s.modules)
  }

  ghost predicate Sound(s: State) {
    WellFormed(s) && Safe(s) && Exact(s)
  }

  lemma EntryAdded(s: State, es: seq<ModuleEntry>)
    requires Sound(s) && es != [] && FreshHandles(es) && Unused(s, es) && AddEntry(s, es[0]).1
    ensures var r := AddEntry(s, es[0]).0;
            && Sound(r) && Unused(r, es[1..]) && FreshHandles(es[1..]) && es[0].name.Some?
            && r.modules == s.modules + [ModuleData(es[0].name.value, es[0].env.handle)] && r.links == s.links
  {
    AddModuleKeeps(s, es[0].name.value, es[0].env);
    hide WellFormed, Safe, Exact, Attach;
    forall i | 0 <= i < |es| - 1 ensures es[1..][i].env.handle != es[0].env.handle {
      assert es[1..][i] == es[i + 1];
    }
  }

  /** Which modules a gateway has once the entries are added. */
  predicate Names(ms: seq<ModuleData>, es: seq<ModuleEntry>) {
    |ms| == |es| && forall i :: 0 <= i < |es| ==> es[i].name == Some(ms[i].name)
  }

  lemma NamesAppend(ms: seq<ModuleData>, done: seq<ModuleEntry>, m: ModuleData, e: ModuleEntry)
    requires Names(ms, done) && e.name == Some(m.name)
    ensures Names(ms + [m], done + [e])
  {
  }

  lemma {:induction false} EntriesAdded(s: State, done: seq<ModuleEntry>, es: seq<ModuleEntry>)
    requires Sound(s) && FreshHandles(es) && Unused(s, es) && AddEntries(s, es).1
    requires s.links == [] && Names(s.modules, done)
    ensures var r := AddEntries(s, es).0; Sound(r) && r.links == [] && Names(r.modules, done + es)
    decreases |es|
  {
    hide Sound, AddEntry, Names, Unused, FreshHandles;
    if es == [] {
      assert done + es == done;
    } else {
      var e := es[0];
      EntryAdded(s, es);
      NamesAppend(s.modules, done, ModuleData(e.name.value, e.env.handle), e);
      EntriesAdded(AddEntry(s, e).0, done + [e], es[1..]);
      assert done + [e] + es[1..] == done + es;
    }
  }

  predicate LinksAre(links: seq<Link>, ls: seq<LinkEntry>) {
    |links| == |ls| && forall i :: 0 <= i < |ls| ==> LinkIs(links[i], ls[i].source, ls[i].sink)
  }

  lemma LinksAreAppend(before: seq<Link>, after: seq<Link>, done: seq<LinkEntry>, l: LinkEntry)
    requires LinksAre(before, done) && |after| == |before| + 1 && after[..|before|] == before
    requires LinkIs(after[|before|], l.source, l.sink)
    ensures LinksAre(after, done + [l])
  {
    hide LinkIs;
    forall i | 0 <= i < |done| ensures after[i] == before[i] {
      assert after[..|before|][i] == before[i];
    }
  }

  lemma LinkAddedSound(s: State, l: LinkEntry)
    requires Sound(s) && AddLink(s, l.source, l.sink, l.env).1
    ensures var r := AddLink(s, l.source, l.sink, l.env).0;
            && Sound(r) && r.modules == s.modules
            && |r.links| == |s.links| + 1 && r.links[..|s.links|] == s.links
            && LinkIs(r.links[|s.links|], l.source, l.sink)
  {
    assert !LossyOp(s, OpAddLink(l.source, l.sink, l.env)) by {
      hide Sound, HasRegular;
    }
    ApplyKeeps(s, OpAddLink(l.source, l.sink, l.env));
    if l.source != GATEWAY_ALL { NameOfSource(s, l); }
    hide WellFormed, Safe, Exact, LossyOp;
  }

  lemma NameOfSource(s: State, l: LinkEntry)
    requires l.source != GATEWAY_ALL && AddRegularLink(s, l.source, l.sink, l.env).1
    ensures var r := AddRegularLink(s, l.source, l.sink, l.env).0;
            |r.links| == |s.links| + 1 && LinkIs(r.links[|s.links|], l.source, l.sink)
  {
  }

  lemma {:induction false} LinksAdded(s: State, done: seq<LinkEntry>, ls: seq<LinkEntry>)
    requires Sound(s) && AddLinks(s, ls).1 && LinksAre(s.links, done)
    ensures var r := AddLinks(s, ls).0; Sound(r) && r.modules == s.modules && LinksAre(r.links, done + ls)
    decreases |ls|
  {
    hide Sound, AddLink, LinksAre;
    if ls == [] {
      assert done + ls == done;
    } else {
      var l := ls[0];
      LinkAddedSound(s, l);
      var r := AddLink(s, l.source, l.sink, l.env).0;
      LinksAreAppend(s.links, r.links, done, l);
      LinksAdded(r, done + [l], ls[1..]);
      assert done + [l] + ls[1..] == done + ls;
    }
  }

  /**
   * A created gateway has exactly the modules and links it was given, in order, and its broker holds
   * exactly the subscriptions they ask for: a wildcard addition that loses one also ends the gateway.
   */
  lemma CreatedIsExact(es: seq<ModuleEntry>, ls: seq<LinkEntry>)
    requires FreshHandles(es) && Build(es, ls).1
    ensures var r := Build(es, ls).0;
            WellFormed(r) && Exact(r) && Names(r.modules, es) && LinksAre(r.links, ls)
  {
    EntriesAdded(INITIAL, [], es);
    assert [] + es == es;
    LinksAdded(AddEntries(INITIAL, es).0, [], ls);
    assert [] + ls == ls;
    hide AddEntries, AddLinks, WellFormed, Exact, Safe;
  }

  /** What can be made: the gateway's memory, its broker, its two vectors and its event system. */
  datatype CreateEnv = CreateEnv(memory: bool, broker: bool, modules: bool, links: bool, events: bool)

  /**
   * Gateway_LL_Create with properties.  ok says whether the gateway is returned; g is null when it
   * never had a broker, and otherwise the gateway that is returned or was destroyed again.
   */
  method Create(es: seq<ModuleEntry>, ls: seq<LinkEntry>, env: CreateEnv) returns (g: Gateway?, ok: bool)
    requires FreshHandles(es)
    ensures g == null <==> !env.memory || !env.broker
    ensures ok <==> env == CreateEnv(true, true, true, true, true) && Build(es, ls).1
    ensures g != null ==> fresh(g)
    ensures ok ==> g != null && g.Valid() && g.State() == Build(es, ls).0
    ensures !ok && g != null ==> g.State() == INITIAL.(refs := 0)
  {
    if !env.memory || !env.broker {
      return null, false;
    }
    g := new Gateway();
    ok := env.modules && env.links;
    if ok {
      ok := AddAllModules(g, es);
    }
    if ok {
      ok := AddAllLinks(g, ls);
    }
    if !ok || !env.events {
      ok := false;
      var _ := g.Destroy({});
    }
  }

  method AddAllModules(g: Gateway, es: seq<ModuleEntry>) returns (ok: bool)
    requires g.Valid() && g.State() == INITIAL && FreshHandles(es)
    modifies g, g.broker
    ensures g.Valid() && (g.State(), ok) == AddEntries(INITIAL, es)
  {
    hide Gateway.Valid;
    ok := true;
    var k := 0;
    while k < |es|
      invariant 0 <= k <= |es| && g.Valid() && ok
      invariant Unused(g.State(), es[k..]) && FreshHandles(es[k..])
      invariant AddEntries(INITIAL, es) == AddEntries(g.State(), es[k..])
    {
      ok := AddModuleEntry(g, es[k..]);
      if !ok {
        return;
      }
      assert es[k..][1..] == es[k + 1..];
      k := k + 1;
    }
  }

  method AddModuleEntry(g: Gateway, es: seq<ModuleEntry>) returns (ok: bool)
    requires g.Valid() && es != [] && Unused(g.State(), es) && FreshHandles(es)
    modifies g, g.broker
    ensures g.Valid() && (g.State(), ok) == AddEntry(old(g.State()), es[0])
    ensures ok ==> Unused(g.State(), es[1..]) && FreshHandles(es[1..])
  {
    var h := g.AddModule(es[0].path, es[0].name, es[0].env);
    ok := h != NULL;
  }

  method AddAllLinks(g: Gateway, ls: seq<LinkEntry>) returns (ok: bool)
    requires g.Valid()
    modifies g, g.broker
    ensures g.Valid() && (g.State(), ok) == AddLinks(old(g.State()), ls)
  {
    hide Gateway.Valid, AddLink;
    ok := true;
    var k := 0;
    while k < |ls|
      invariant 0 <= k <= |ls| && g.Valid() && ok
      invariant AddLinks(old(g.State()), ls) == AddLinks(g.State(), ls[k..])
    {
      ok := g.AddLink(Some(ls[k].source), Some(ls[k].sink), ls[k].env);
      if !ok {
        return;
      }
      assert ls[k..][1..] == ls[k + 1..];
      k := k + 1;
    }
  }
}
