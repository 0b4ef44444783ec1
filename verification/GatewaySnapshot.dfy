/** Gateway_LL_GetModuleList (core/src/gateway_ll.c): modules with the names of their sources. */
module GatewaySnapshot {
  import opened Bytes
  import opened Frames
  import opened PubSubBroker
  import opened GatewayModel

  /** A GATEWAY_MODULE_INFO; no source vector stands for the wildcard. */
  datatype Listed = Listed(name: string, sources: Option<seq<string>>)

  ghost predicate AnySourceTo(ls: seq<Link>, name: string) {
    exists i :: 0 <= i < |ls| && ls[i].AnySource? && ls[i].sink.name == name
  }

  /** The sources of the regular links to a sink, in the order of the links. */
  ghost function RegularSources(ls: seq<Link>, name: string): seq<string> {
    if ls == [] then [] else
      var l := ls[|ls| - 1];
      RegularSources(ls[..|ls| - 1], name) + if l.Regular? && l.sink.name == name then [l.source.name] else []
  }

  ghost predicate IsListing(r: seq<Listed>, ms: seq<ModuleData>, ls: seq<Link>) {
    && |r| == |ms|
    && forall i :: 0 <= i < |ms| ==> IsEntry(r[i], ms[i].name, ls)
  }

  ghost predicate IsEntry(e: Listed, name: string, ls: seq<Link>) {
    e == Listed(name, if AnySourceTo(ls, name) then None else Some(RegularSources(ls, name)))
  }

  /** A regular link that runs out of memory, or comes after a wildcard link to the same sink. */
  ghost predicate Unlistable(ls: seq<Link>, j: nat, failed: set<nat>)
    requires j < |ls|
  {
    ls[j].Regular? && (j in failed || AnySourceTo(ls[..j], ls[j].sink.name))
  }

  lemma OneMoreLink(ls: seq<Link>, k: nat, name: string)
    requires k < |ls|
    ensures AnySourceTo(ls[..k + 1], name) <==>
            AnySourceTo(ls[..k], name) || (ls[k].AnySource? && ls[k].sink.name == name)
    ensures RegularSources(ls[..k + 1], name) == RegularSources(ls[..k], name)
              + if ls[k].Regular? && ls[k].sink.name == name then [ls[k].source.name] else []
  {
    var (p, n) := (ls[..k], ls[..k + 1]);
    assert n[..|n| - 1] == p && n[k] == ls[k];
    if AnySourceTo(p, name) {
      var i :| 0 <= i < |p| && p[i].AnySource? && p[i].sink.name == name;
      assert n[i] == p[i];
    }
  }

  lemma OtherEntriesKeep(r: seq<Listed>, ms: seq<ModuleData>, ls: seq<Link>, k: nat, s: nat, e: Listed)
    requires UniqueModules(ms) && k < |ls| && IsListing(r, ms, ls[..k])
    requires s < |ms| && ms[s].name == ls[k].sink.name && IsEntry(e, ms[s].name, ls[..k + 1])
    ensures IsListing(r[s := e], ms, ls[..k + 1])
  {
    hide AnySourceTo, RegularSources;
    forall i | 0 <= i < |ms| ensures IsEntry(r[s := e][i], ms[i].name, ls[..k + 1]) {
      OneMoreLink(ls, k, ms[i].name);
      if i != s {
        assert r[s := e][i] == r[i] && IsEntry(r[i], ms[i].name, ls[..k]);
        assert ms[i].name != ls[k].sink.name;
        assert RegularSources(ls[..k + 1], ms[i].name) == RegularSources(ls[..k], ms[i].name);
      }
    }
  }

  lemma EntryOf(r: seq<Listed>, ms: seq<ModuleData>, ls: seq<Link>, s: nat)
    requires IsListing(r, ms, ls) && s < |ms|
    ensures |r| == |ms| && IsEntry(r[s], ms[s].name, ls)
  {
  }

  /** VECTOR_find_if with module_info_name_find */
  method Find(ms: seq<ModuleData>, name: string) returns (i: nat)
    ensures i <= |ms| && (i < |ms| ==> ms[i].name == name)
    ensures i == |ms| ==> forall m :: m in ms ==> m.name != name
  {
    i := 0;
    while i < |ms| && ms[i].name != name
      invariant i <= |ms| && forall k :: 0 <= k < i ==> ms[k].name != name
    {
      i := i + 1;
    }
  }

  /**
   * The list is refused when memory runs out or a regular link comes after a wildcard link to the
   * same sink, because the source vector of that sink is gone by then.
   */
  method GetModuleList(ms: seq<ModuleData>, ls: seq<Link>, alloc: bool, failed: set<nat>)
      returns (r: Option<seq<Listed>>)
    requires UniqueModules(ms) && LiveLinks(ls, ms)
    ensures r == None <==> !alloc || exists j :: 0 <= j < |ls| && Unlistable(ls, j, failed)
    ensures r.Some? ==> IsListing(r.value, ms, ls)
  {
    if !alloc {
      return None;
    }
    var list := seq(|ms|, i requires 0 <= i < |ms| => Listed(ms[i].name, Some([])));
    assert IsListing(list, ms, ls[..0]);
    r := ListLinks(list, ms, ls, failed);
  }

  method ListLinks(first: seq<Listed>, ms: seq<ModuleData>, ls: seq<Link>, failed: set<nat>)
      returns (r: Option<seq<Listed>>)
    requires UniqueModules(ms) && LiveLinks(ls, ms) && IsListing(first, ms, ls[..0])
    ensures r == None <==> exists j :: 0 <= j < |ls| && Unlistable(ls, j, failed)
    ensures r.Some? ==> IsListing(r.value, ms, ls)
  {
    hide Unlistable, IsListing, UniqueModules, LiveLinks;
    var list := first;
    var k := 0;
    while k < |ls|
      invariant 0 <= k <= |ls| && IsListing(list, ms, ls[..k])
      invariant forall j :: 0 <= j < k ==> !Unlistable(ls, j, failed)
    {
      var next := ListLink(list, ms, ls, k, failed);
      if next == None {
        return None;
      }
      list := next.value;
      k := k + 1;
    }
    assert ls[..|ls|] == ls;
    return Some(list);
  }

  method ListLink(list: seq<Listed>, ms: seq<ModuleData>, ls: seq<Link>, k: nat, failed: set<nat>)
      returns (r: Option<seq<Listed>>)
    requires UniqueModules(ms) && LiveLinks(ls, ms) && k < |ls| && IsListing(list, ms, ls[..k])
    ensures r == None <==> Unlistable(ls, k, failed)
    ensures r.Some? ==> IsListing(r.value, ms, ls[..k + 1])
  {
    var l := ls[k];
    assert l in ls;
    var sink := Find(ms, l.sink.name);
    EntryOf(list, ms, ls[..k], sink);
    OneMoreLink(ls, k, l.sink.name);
    hide AnySourceTo, RegularSources, IsListing, UniqueModules;
    var entry := Listed(ms[sink].name, None);
    if l.Regular? {
      if k in failed || list[sink].sources == None {
        return None;
      }
      entry := Listed(ms[sink].name, Some(list[sink].sources.value + [l.source.name]));
    }
    OtherEntriesKeep(list, ms, ls, k, sink, entry);
    return Some(list[sink := entry]);
  }

  /** With two modules, the same two links can be listed in one order and not in the other. */
  lemma OrderDecides(a: ModuleData, b: ModuleData)
    ensures var ls := [Regular(a, b), AnySource(b)]; !Unlistable(ls, 0, {}) && !Unlistable(ls, 1, {})
    ensures var ls := [AnySource(b), Regular(a, b)]; Unlistable(ls, 1, {})
  {
    var ls := [AnySource(b), Regular(a, b)];
    assert ls[..1][0].AnySource? && ls[1].sink.name == b.name;
  }

  // ----- The gateway does get there -----

  function DemoWildcard(g: Guid, more: seq<Link>, subs: multiset<Handle>): State {
    State([DEMO_A, DEMO_B], [AnySource(DEMO_B)] + more,
          map[1 := Socket(g, multiset{}, []), 2 := Socket(g, subs, [])], 3, 2, 2)
  }

  lemma DemoWildcardLink(g: Guid)
    ensures Apply(DemoTwo(g), OpAddLink("*", "b", LinkEnv(true, {}))) == DemoWildcard(g, [], multiset{1})
  {
    var (ms, r) := ([DEMO_A, DEMO_B], DemoWildcard(g, [], multiset{1}));
    assert ms[1..] == [DEMO_B] && FindByName(ms, "b") == Some(DEMO_B) && DEMO_A in ms;
    assert Others(ms, 2) == {1} && FirstRefused(ms, 2, {}) == 2;
    var none: multiset<Handle> := multiset{};
    assert none + multiset(Others(ms, 2)) == multiset{1};
    assert SetSubs(DemoTwo(g).sockets, 2, multiset{1}) == r.sockets;
    assert [] + [AnySource(DEMO_B)] == r.links;
  }

  lemma DemoOverlap(g: Guid)
    ensures Apply(DemoWildcard(g, [], multiset{1}), OpAddLink("a", "b", LinkEnv(true, {})))
         == DemoWildcard(g, [Regular(DEMO_A, DEMO_B)], multiset{1, 1})
  {
    var (s, ms) := (DemoWildcard(g, [], multiset{1}), [DEMO_A, DEMO_B]);
    assert ms[1..] == [DEMO_B] && FindByName(ms, "b") == Some(DEMO_B);
    assert s.links == [AnySource(DEMO_B)] && s.links[1..] == [];
    assert LinkIndex(s.links, "a", "b") == 1;
    var one: multiset<Handle> := multiset{1};
    assert one + multiset{1} == multiset{1, 1};
    assert Subscribe(s.sockets, 1, 2) == DemoWildcard(g, [Regular(DEMO_A, DEMO_B)], multiset{1, 1}).sockets;
  }

  lemma NothingRefused(s: State, op: Op)
    requires op.OpAddLink? ==> op.linkEnv.refused == {}
    ensures !LossyOp(s, op)
  {
  }

  lemma OverlapRun(g: Guid) returns (states: seq<State>, ops: seq<Op>)
    ensures IsRun(states, ops) && |ops| == 4
    ensures states[4] == DemoWildcard(g, [Regular(DEMO_A, DEMO_B)], multiset{1, 1})
    ensures forall i :: 0 <= i < 4 && ops[i].OpAddLink? ==> ops[i].linkEnv.refused == {}
  {
    DemoAddModules(g);
    DemoWildcardLink(g);
    DemoOverlap(g);
    DemoAllowed(g);
    assert !DemoAdd(DEMO_A, g).OpAddLink? && !DemoAdd(DEMO_B, g).OpAddLink?;
    hide Apply, DemoOne, DemoTwo, DemoWildcard, DemoAdd, Handles;
    states := [INITIAL, DemoOne(g), DemoTwo(g), DemoWildcard(g, [], multiset{1}),
               DemoWildcard(g, [Regular(DEMO_A, DEMO_B)], multiset{1, 1})];
    ops := [DemoAdd(DEMO_A, g), DemoAdd(DEMO_B, g),
            OpAddLink("*", "b", LinkEnv(true, {})), OpAddLink("a", "b", LinkEnv(true, {}))];
  }

  /** After this run, in which nothing fails, the gateway cannot list its modules any more. */
  lemma ListingIsRefused(g: Guid) returns (states: seq<State>, ops: seq<Op>)
    ensures IsRun(states, ops) && |ops| == 4 && |states[4].links| == 2
    ensures Exact(states[4]) && Unlistable(states[4].links, 1, {})
  {
    states, ops := OverlapRun(g);
    OrderDecides(DEMO_A, DEMO_B);
    assert states[4].links == [AnySource(DEMO_B), Regular(DEMO_A, DEMO_B)];
    hide DemoWildcard, Exact, Unlistable, LossyOp, IsRun;
    forall i | 0 <= i < 4 ensures !LossyOp(states[i], ops[i]) {
      NothingRefused(states[i], ops[i]);
    }
    RunsAreExact(states, ops, 4);
  }
}
