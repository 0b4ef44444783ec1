/**
 * What each operation of the gateway does, said by names and handles: which module or link comes or
 * goes, which subscription counts change, and that nothing else does.
 */
module GatewayLaws {
  import opened Bytes
  import opened Frames
  import opened PubSubBroker
  import opened GatewayModel

  /** The link goes from this source name, or from "*", to this sink name. */
  predicate Named(l: Link, source: string, sink: string) {
    && l.sink.name == sink
    && (l.AnySource? <==> source == "*") && (l.Regular? ==> l.source.name == source)
  }

  predicate HasNamed(ls: seq<Link>, source: string, sink: string) {
    exists l :: l in ls && Named(l, source, sink)
  }

  predicate IsModule(ms: seq<ModuleData>, name: string) {
    exists m :: m in ms && m.name == name
  }

  /** The link asks for a subscription of t to h. */
  predicate AsksFor(l: Link, ms: seq<ModuleData>, h: Handle, t: Handle) {
    && l.sink.handle == t
    && match l
       case Regular(a, _) => a.handle == h
       case AnySource(_) => h != t && exists m :: m in ms && m.handle == h
  }

  /** Only subscriptions differ between two tables. */
  ghost predicate SameFrames(a: Sockets, b: Sockets) {
    a.Keys == b.Keys && forall t :: t in a ==> b[t].guid == a[t].guid && b[t].inbox == a[t].inbox
  }

  lemma NamedIsLinkIs(l: Link, source: string, sink: string)
    requires l.Regular? ==> l.source.name != "*"
    ensures Named(l, source, sink) <==> LinkIs(l, source, sink)
  {
  }

  lemma SourcesAreNames(s: State, l: Link)
    requires WellFormed(s) && l in s.links
    ensures l.sink in s.modules && (l.Regular? ==> l.source in s.modules && l.source.name != "*")
  {
  }

  /** In a well-formed state names determine a link. */
  lemma NamedOnce(s: State, l: Link, k: Link, source: string, sink: string)
    requires WellFormed(s) && l in s.links && k in s.links && Named(l, source, sink) && Named(k, source, sink)
    ensures l == k
  {
    SourcesAreNames(s, l);
    SourcesAreNames(s, k);
    SameModule(s.modules, l.sink, k.sink);
    if l.Regular? { SameModule(s.modules, l.source, k.source); }
  }

  lemma FoundLink(s: State, source: string, sink: string)
    requires WellFormed(s)
    ensures var i := LinkIndex(s.links, source, sink);
            && (i < |s.links| <==> HasNamed(s.links, source, sink))
            && (i < |s.links| ==> Named(s.links[i], source, sink))
  {
    var i := LinkIndex(s.links, source, sink);
    if i < |s.links| {
      SourcesAreNames(s, s.links[i]);
      NamedIsLinkIs(s.links[i], source, sink);
      assert s.links[i] in s.links;
    }
    hide WellFormed;
    if l :| l in s.links && Named(l, source, sink) {
      SourcesAreNames(s, l);
      NamedIsLinkIs(l, source, sink);
      var k :| 0 <= k < |s.links| && s.links[k] == l;
    }
  }

  lemma OthersAre(ms: seq<ModuleData>, t: Handle, h: Handle)
    ensures h in Others(ms, t) <==> h != t && exists m :: m in ms && m.handle == h
  {
  }

  lemma RemoveLinkAtCounts(s: State, i: nat, h: Handle, t: Handle)
    requires WellFormed(s) && i < |s.links| && t in s.sockets
    ensures var r := RemoveLinkAt(s, i);
            && t in r.sockets && r.sockets[t].guid == s.sockets[t].guid && r.sockets[t].inbox == s.sockets[t].inbox
            && r.sockets[t].subs[h] == if AsksFor(s.links[i], s.modules, h, t) && s.sockets[t].subs[h] > 0
                                       then s.sockets[t].subs[h] - 1 else s.sockets[t].subs[h]
  {
    OthersAre(s.modules, s.links[i].sink.handle, h);
    hide WellFormed, Others;
  }

  /** A link with these names asks for a subscription of t to h. */
  predicate NamedAsks(s: State, source: string, sink: string, h: Handle, t: Handle) {
    exists l :: l in s.links && Named(l, source, sink) && AsksFor(l, s.modules, h, t)
  }

  lemma NamedAsksIs(s: State, i: nat, source: string, sink: string, h: Handle, t: Handle)
    requires WellFormed(s) && i < |s.links| && Named(s.links[i], source, sink)
    ensures NamedAsks(s, source, sink, h, t) <==> AsksFor(s.links[i], s.modules, h, t)
  {
    assert s.links[i] in s.links;
    hide WellFormed, Named, AsksFor;
    forall l | l in s.links && Named(l, source, sink) ensures l == s.links[i] {
      NamedOnce(s, l, s.links[i], source, sink);
    }
  }

  /** The count of one subscription when a link that may ask for it is removed. */
  function Without(count: nat, asked: bool): nat {
    if asked && count > 0 then count - 1 else count
  }

  lemma RemoveLinkCounts(s: State, source: string, sink: string, h: Handle, t: Handle)
    requires WellFormed(s) && t in s.sockets
    ensures var r := RemoveLink(s, source, sink);
            && t in r.sockets && r.sockets[t].guid == s.sockets[t].guid && r.sockets[t].inbox == s.sockets[t].inbox
            && r.sockets[t].subs[h] == Without(s.sockets[t].subs[h], NamedAsks(s, source, sink, h, t))
  {
    var i := LinkIndex(s.links, source, sink);
    FoundLink(s, source, sink);
    if i < |s.links| {
      NamedAsksIs(s, i, source, sink, h, t);
      RemoveLinkAtCounts(s, i, h, t);
    }
    hide WellFormed, Named, AsksFor, LinkIndex, RemoveLinkAt;
  }

  /**
   * RemoveLink removes the link with these names, if there is one, and no other; of the subscriptions
   * only those it asks for become one less.
   */
  lemma RemoveLinkIs(s: State, source: string, sink: string)
    requires WellFormed(s)
    ensures var r := RemoveLink(s, source, sink);
            && (!HasNamed(s.links, source, sink) ==> r == s)
            && (HasNamed(s.links, source, sink) ==>
                  exists i :: && 0 <= i < |s.links| && Named(s.links[i], source, sink)
                              && r.links == s.links[..i] + s.links[i + 1..])
            && (forall l :: l in r.links <==> l in s.links && !Named(l, source, sink))
            && r == s.(links := r.links, sockets := r.sockets) && SameFrames(s.sockets, r.sockets)
            && (forall h, t :: t in s.sockets ==>
                  r.sockets[t].subs[h] == Without(s.sockets[t].subs[h], NamedAsks(s, source, sink, h, t)))
  {
    var (i, r) := (LinkIndex(s.links, source, sink), RemoveLink(s, source, sink));
    FoundLink(s, source, sink);
    if i < |s.links| {
      LeftLinks(s, i, source, sink);
      RemoveLinkAtKeys(s, i);
    }
    hide WellFormed, Named, LinkIndex, RemoveLinkAt, NamedAsks;
    assert r.sockets.Keys == s.sockets.Keys;
    forall h, t | t in s.sockets
      ensures t in r.sockets && r.sockets[t].guid == s.sockets[t].guid && r.sockets[t].inbox == s.sockets[t].inbox
      ensures r.sockets[t].subs[h] == Without(s.sockets[t].subs[h], NamedAsks(s, source, sink, h, t))
    {
      RemoveLinkCounts(s, source, sink, h, t);
    }
  }

  lemma RemoveLinkAtKeys(s: State, i: nat)
    requires i < |s.links|
    ensures var r := RemoveLinkAt(s, i);
            && r == s.(links := s.links[..i] + s.links[i + 1..], sockets := r.sockets)
            && r.sockets.Keys == s.sockets.Keys
  {
  }

  /** Without the one link with these names the list has all the others and none with these names. */
  lemma LeftLinks(s: State, i: nat, source: string, sink: string)
    requires WellFormed(s) && i < |s.links| && Named(s.links[i], source, sink)
    ensures forall l :: l in s.links[..i] + s.links[i + 1..] <==> l in s.links && !Named(l, source, sink)
  {
    var rest := s.links[..i] + s.links[i + 1..];
    assert s.links[i] in s.links;
    assert forall k :: 0 <= k < |rest| ==> rest[k] == s.links[if k < i then k else k + 1];
    hide Named;
    forall l ensures l in rest <==> l in s.links && !Named(l, source, sink) {
      if l in s.links {
        if Named(l, source, sink) { NamedOnce(s, l, s.links[i], source, sink); }
        var k :| 0 <= k < |s.links| && s.links[k] == l;
        if k < i { assert rest[k] == l; }
        if k > i { assert rest[k - 1] == l; }
      }
    }
  }

  // ----- Adding a link -----

  lemma FoundModule(ms: seq<ModuleData>, name: string)
    ensures FindByName(ms, name).Some? <==> IsModule(ms, name)
    ensures FindByName(ms, name).Some? ==> FindByName(ms, name).value in ms && FindByName(ms, name).value.name == name
  {
  }

  /** The broker refuses a subscription that the link asks for. */
  predicate Refused(l: Link, ms: seq<ModuleData>, refused: set<(Handle, Handle)>) {
    exists p :: p in refused && AsksFor(l, ms, p.0, p.1)
  }

  lemma FirstRefusedIs(ms: seq<ModuleData>, m: ModuleData, refused: set<(Handle, Handle)>)
    ensures FirstRefused(ms, m.handle, refused) == |ms| <==> !Refused(AnySource(m), ms, refused)
  {
    var k := FirstRefused(ms, m.handle, refused);
    if k < |ms| {
      assert ms[k] in ms && AsksFor(AnySource(m), ms, (ms[k].handle, m.handle).0, (ms[k].handle, m.handle).1);
    }
  }

  /** The link that AddLink makes from two names; a name without a module gives none. */
  function LinkOf(ms: seq<ModuleData>, source: string, sink: string): Option<Link> {
    match FindByName(ms, sink)
    case None => None
    case Some(b) =>
      if source == "*" then Some(AnySource(b))
      else match FindByName(ms, source) case None => None case Some(a) => Some(Regular(a, b))
  }

  lemma LinkOfIs(ms: seq<ModuleData>, source: string, sink: string)
    ensures LinkOf(ms, source, sink).Some? <==> IsModule(ms, sink) && (source == "*" || IsModule(ms, source))
    ensures LinkOf(ms, source, sink).Some? ==>
              var l := LinkOf(ms, source, sink).value;
              Named(l, source, sink) && l.sink in ms && (l.Regular? ==> l.source in ms)
  {
    FoundModule(ms, source);
    FoundModule(ms, sink);
  }

  lemma RegularRefused(ms: seq<ModuleData>, a: ModuleData, b: ModuleData, refused: set<(Handle, Handle)>)
    ensures (a.handle, b.handle) in refused <==> Refused(Regular(a, b), ms, refused)
  {
    assert AsksFor(Regular(a, b), ms, (a.handle, b.handle).0, (a.handle, b.handle).1);
  }

  lemma SinkIsLive(s: State, name: string)
    requires WellFormed(s)
    ensures FindByName(s.modules, name).Some? ==> FindByName(s.modules, name).value.handle in s.sockets
  {
    hide UniqueModules, UniqueLinks, LiveLinks;
  }

  /**
   * AddLink succeeds exactly when no link has these names, the modules they name are there, memory
   * suffices and the broker refuses none of the subscriptions asked for.
   */
  lemma AddLinkSucceedsIff(s: State, source: string, sink: string, env: LinkEnv)
    requires WellFormed(s)
    ensures AddLink(s, source, sink, env).1 <==>
              && !HasNamed(s.links, source, sink) && IsModule(s.modules, sink)
              && (source == "*" || IsModule(s.modules, source)) && env.push
              && !Refused(LinkOf(s.modules, source, sink).value, s.modules, env.refused)
  {
    FoundLink(s, source, sink);
    LinkOfIs(s.modules, source, sink);
    SinkIsLive(s, sink);
    if LinkOf(s.modules, source, sink).Some? {
      var l := LinkOf(s.modules, source, sink).value;
      match l {
        case AnySource(b) => FirstRefusedIs(s.modules, b, env.refused);
        case Regular(a, b) => RegularRefused(s.modules, a, b, env.refused);
      }
    }
    hide WellFormed, Named, Refused, LinkIndex, FirstRefused, HasNamed, IsModule;
  }

  lemma AddedCounts(s: State, l: Link, h: Handle, t: Handle)
    requires t in s.sockets && l.sink.handle in s.sockets
    ensures var subs := s.sockets[l.sink.handle].subs
                        + if l.Regular? then multiset{l.source.handle} else multiset(Others(s.modules, l.sink.handle));
            var r := SetSubs(s.sockets, l.sink.handle, subs);
            && r[t].guid == s.sockets[t].guid && r[t].inbox == s.sockets[t].inbox
            && r[t].subs[h] == s.sockets[t].subs[h] + if AsksFor(l, s.modules, h, t) then 1 else 0
  {
    OthersAre(s.modules, l.sink.handle, h);
    hide Others;
  }

  lemma AddLinkCounts(s: State, source: string, sink: string, env: LinkEnv, h: Handle, t: Handle)
    requires AddLink(s, source, sink, env).1 && t in s.sockets
    ensures LinkOf(s.modules, source, sink).Some?
    ensures var (r, l) := (AddLink(s, source, sink, env).0, LinkOf(s.modules, source, sink).value);
            && t in r.sockets && r.sockets[t].guid == s.sockets[t].guid && r.sockets[t].inbox == s.sockets[t].inbox
            && r.sockets[t].subs[h] == s.sockets[t].subs[h] + if AsksFor(l, s.modules, h, t) then 1 else 0
  {
    AddedLink(s, source, sink, env);
    AddedCounts(s, LinkOf(s.modules, source, sink).value, h, t);
    hide AddLink, LinkOf, AsksFor, Others, SetSubs;
  }

  /** A link that is added has these names and live ends, and brings exactly the subscriptions it asks for. */
  lemma AddLinkIs(s: State, source: string, sink: string, env: LinkEnv)
    requires AddLink(s, source, sink, env).1
    ensures var r := AddLink(s, source, sink, env).0;
            && |r.links| == |s.links| + 1 && r.links[..|s.links|] == s.links
            && r == s.(links := r.links, sockets := r.sockets) && SameFrames(s.sockets, r.sockets)
            && var l := r.links[|s.links|];
               && Named(l, source, sink) && l.sink in s.modules && (l.Regular? ==> l.source in s.modules)
               && forall h, t :: t in s.sockets ==>
                    r.sockets[t].subs[h] == s.sockets[t].subs[h] + if AsksFor(l, s.modules, h, t) then 1 else 0
  {
    LinkOfIs(s.modules, source, sink);
    AddedLink(s, source, sink, env);
    var (r, l) := (AddLink(s, source, sink, env).0, LinkOf(s.modules, source, sink).value);
    assert r.sockets.Keys == s.sockets.Keys;
    hide Named, AddLink, LinkOf, AsksFor, SetSubs, Others, IsModule;
    forall h, t | t in s.sockets
      ensures t in r.sockets && r.sockets[t].guid == s.sockets[t].guid && r.sockets[t].inbox == s.sockets[t].inbox
      ensures r.sockets[t].subs[h] == s.sockets[t].subs[h] + if AsksFor(l, s.modules, h, t) then 1 else 0
    {
      AddLinkCounts(s, source, sink, env, h, t);
    }
  }

  lemma AddedLink(s: State, source: string, sink: string, env: LinkEnv)
    requires AddLink(s, source, sink, env).1
    ensures LinkOf(s.modules, source, sink).Some?
    ensures var (r, l) := (AddLink(s, source, sink, env).0, LinkOf(s.modules, source, sink).value);
            && l.sink.handle in s.sockets
            && r == s.(links := s.links + [l],
                       sockets := SetSubs(s.sockets, l.sink.handle, s.sockets[l.sink.handle].subs
                         + if l.Regular? then multiset{l.source.handle}
                           else multiset(Others(s.modules, l.sink.handle))))
  {
    hide Others, FirstRefused;
  }

  // ----- Adding and removing a module -----

  /** The link graph has a wildcard link to this sink. */
  predicate Wildcard(ls: seq<Link>, t: Handle) {
    exists l :: l in ls && l.AnySource? && l.sink.handle == t
  }

  /** A module is added exactly when its name is free and not "*" and nothing on the way fails. */
  lemma AddModuleSucceedsIff(s: State, name: string, env: AddEnv)
    ensures AddModule(s, name, env).1 != NULL <==>
              && name != "*" && !IsModule(s.modules, name)
              && env.alloc && env.load && env.handle != NULL && env.attach && env.copy && env.push
              && forall l :: l in s.links && l.AnySource? ==> (env.handle, l.sink.handle) !in env.refused
    ensures AddModule(s, name, env).1 != NULL ==> AddModule(s, name, env).1 == env.handle
  {
    FoundModule(s.modules, name);
    hide Offer, Attach;
  }

  /** An added module comes last, with a fresh socket, and every wildcard sink subscribes to it once. */
  lemma AddModuleIs(s: State, name: string, env: AddEnv)
    requires env.handle !in s.sockets && AddModule(s, name, env).1 != NULL
    ensures var (r, h) := (AddModule(s, name, env).0, env.handle);
            && r.modules == s.modules + [ModuleData(name, h)] && r.links == s.links
            && r.refs == s.refs + 1 && r.loaded == s.loaded + 1 && r.created == s.created + 1
            && r.sockets.Keys == s.sockets.Keys + {h} && r.sockets[h] == Socket(env.guid, multiset{}, [])
            && forall t :: t in s.sockets ==>
                 && r.sockets[t].guid == s.sockets[t].guid && r.sockets[t].inbox == s.sockets[t].inbox
                 && forall a :: r.sockets[t].subs[a]
                      == s.sockets[t].subs[a] + if a == h && Wildcard(s.links, t) then 1 else 0
  {
    var (r, h) := (AddModule(s, name, env).0, env.handle);
    assert r.sockets == Attach(s.sockets, s.links, h, env.guid) by { hide Attach, Offer; }
    hide AddModule;
    forall t ensures Wildcard(s.links, t) <==> HasAny(s.links, t) {}
    hide Wildcard, HasAny;
  }

  /** The links that do not touch the module with this handle, in order. */
  function Untouched(ls: seq<Link>, h: Handle): seq<Link> {
    if ls == [] then []
    else (if ls[0].sink.handle == h || (ls[0].Regular? && ls[0].source.handle == h) then [] else [ls[0]])
         + Untouched(ls[1..], h)
  }

  lemma {:induction false} SurvivingUntouched(ms: seq<ModuleData>, ls: seq<Link>, m: ModuleData)
    requires UniqueModules(ms) && m in ms && LiveLinks(ls, ms)
    ensures Surviving(ls, m.name) == Untouched(ls, m.handle)
  {
    if ls != [] {
      assert ls[0] in ls && LiveLinks(ls[1..], ms);
      SameModule(ms, ls[0].sink, m);
      if ls[0].Regular? { SameModule(ms, ls[0].source, m); }
      hide UniqueModules, LiveLinks;
      SurvivingUntouched(ms, ls[1..], m);
    }
  }

  lemma RemoveModuleAtIs(s: State, i: nat, dropped: set<Handle>)
    requires WellFormed(s) && Safe(s) && i < |s.modules|
    ensures var (r, h) := (RemoveModuleAt(s, i, dropped), s.modules[i].handle);
            && r.modules == s.modules[..i] + s.modules[i + 1..] && r.links == Untouched(s.links, h)
            && r.refs == s.refs - 1 && r.loaded == s.loaded - 1 && r.created == s.created - 1
            && r.sockets.Keys == s.sockets.Keys - {h}
            && forall t, a :: t in r.sockets ==>
                 r.sockets[t].subs[a] == if a == h then 0 else s.sockets[t].subs[a]
  {
    var m := s.modules[i];
    assert m in s.modules;
    SurvivingUntouched(s.modules, s.links, m);
    RemovedKeys(s, i, dropped);
    hide WellFormed, Safe, Exact, Expected, Surviving, Forget, Detach, Untouched, Mentions;
    RemoveModuleKeeps(s, i, dropped);
  }

  /** RemoveModule removes the module with this handle and the links and subscriptions that touch it, and no more. */
  lemma RemoveModuleIs(s: State, h: Handle, dropped: set<Handle>)
    requires WellFormed(s) && Safe(s)
    ensures (forall m :: m in s.modules ==> m.handle != h) ==> RemoveModule(s, h, dropped) == s
    ensures (exists m :: m in s.modules && m.handle == h) ==>
              var r := RemoveModule(s, h, dropped);
              && (exists i :: && 0 <= i < |s.modules| && s.modules[i].handle == h
                              && r.modules == s.modules[..i] + s.modules[i + 1..])
              && r.links == Untouched(s.links, h)
              && r.refs == s.refs - 1 && r.loaded == s.loaded - 1 && r.created == s.created - 1
              && r.sockets.Keys == s.sockets.Keys - {h}
              && forall t, a :: t in r.sockets ==> r.sockets[t].subs[a] == if a == h then 0 else s.sockets[t].subs[a]
  {
    var i := IndexOfHandle(s.modules, h);
    if i < |s.modules| {
      RemoveModuleAtIs(s, i, dropped);
      assert s.modules[i] in s.modules;
    }
    hide WellFormed, Safe, RemoveModuleAt, Untouched;
  }

  lemma RemovedKeys(s: State, i: nat, dropped: set<Handle>)
    requires i < |s.modules|
    ensures RemoveModuleAt(s, i, dropped).sockets.Keys == s.sockets.Keys - {s.modules[i].handle}
  {
    hide Matches, QuitFrame;
  }

  /** Removing by name removes the module that has the name, and says whether there was one. */
  lemma RemoveModuleByNameIs(s: State, name: string, dropped: set<Handle>)
    requires WellFormed(s)
    ensures var (r, ok) := RemoveModuleByName(s, name, dropped);
            && (ok <==> IsModule(s.modules, name)) && (!ok ==> r == s) && !IsModule(r.modules, name)
            && forall m :: m in s.modules && m.name == name ==> r == RemoveModule(s, m.handle, dropped)
  {
    FoundModule(s.modules, name);
    if FindByName(s.modules, name).Some? {
      var m := FindByName(s.modules, name).value;
      var i := IndexOfHandle(s.modules, m.handle);
      ModulesLeft(s.modules, i, m);
      forall n | n in s.modules && n.name == name ensures n == m {
        SameModule(s.modules, n, m);
      }
    }
    hide UniqueModules, UniqueLinks, LiveLinks, Forget, Detach, Surviving, FindByName;
  }

  lemma {:induction false} ModulesLeft(ms: seq<ModuleData>, i: nat, m: ModuleData)
    requires UniqueModules(ms) && m in ms && i == IndexOfHandle(ms, m.handle)
    ensures i < |ms| && !IsModule(ms[..i] + ms[i + 1..], m.name)
  {
    assert i < |ms| && ms[i].handle == m.handle by {
      var k :| 0 <= k < |ms| && ms[k] == m;
    }
    SameModule(ms, ms[i], m);
    var rest := ms[..i] + ms[i + 1..];
    forall j | 0 <= j < |rest| ensures rest[j].name != m.name {
      assert rest[j] == ms[if j < i then j else j + 1];
    }
    hide IndexOfHandle;
  }
}
