/** The gateway of core/src/gateway_ll.c, statement by statement, over the broker. */
module GatewayLL {
  import opened Bytes
  import opened Frames
  import opened PubSubBroker
  import M = GatewayModel
  import S = GatewaySnapshot

  type ModuleData = M.ModuleData
  type Link = M.Link

  // ----- The table while links are being processed one by one -----

  /** b with h subscribed once by each wildcard sink of the first k links. */
  ghost function Subscribed(b: Sockets, ls: seq<Link>, k: nat, h: Handle): Sockets
    requires k <= |ls|
  {
    map t | t in b :: if M.HasAny(ls[..k], t) then b[t].(subs := b[t].subs + multiset{h}) else b[t]
  }

  /** b with h unsubscribed once by each wildcard sink of the first j links. */
  ghost function Unlinked(b: Sockets, ls: seq<Link>, j: nat, h: Handle): Sockets
    requires j <= |ls|
  {
    map t | t in b :: if M.HasAny(ls[..j], t) then b[t].(subs := b[t].subs - multiset{h}) else b[t]
  }

  ghost predicate Graph(ms: seq<ModuleData>, ls: seq<Link>) {
    M.UniqueModules(ms) && M.UniqueLinks(ls) && M.LiveLinks(ls, ms)
  }

  lemma PrefixHasAny(ms: seq<ModuleData>, ls: seq<Link>, j: nat, t: Handle)
    requires Graph(ms, ls) && j < |ls|
    ensures M.HasAny(ls[..j + 1], t) <==> M.HasAny(ls[..j], t) || (ls[j].AnySource? && ls[j].sink.handle == t)
    ensures ls[j].AnySource? ==> !M.HasAny(ls[..j], ls[j].sink.handle)
  {
    assert ls[..j + 1] == ls[..j] + [ls[j]];
    M.LinksAppend(ls[..j], ls[j], 0, t);
    if ls[j].AnySource? {
      forall l | l in ls[..j] && l.AnySource? ensures l.sink.handle != ls[j].sink.handle {
        assert l in ls && ls[j] in ls;
        M.SameModule(ms, l.sink, ls[j].sink);
      }
    }
  }

  lemma SubscribedStep(ms: seq<ModuleData>, ls: seq<Link>, b: Sockets, k: nat, h: Handle)
    requires Graph(ms, ls) && k < |ls| && (ls[k].AnySource? ==> ls[k].sink.handle in b)
    ensures Subscribed(b, ls, k + 1, h)
         == if ls[k].AnySource? then Subscribe(Subscribed(b, ls, k, h), h, ls[k].sink.handle)
            else Subscribed(b, ls, k, h)
  {
    forall t ensures M.HasAny(ls[..k + 1], t) <==>
                     M.HasAny(ls[..k], t) || (ls[k].AnySource? && ls[k].sink.handle == t) {
      PrefixHasAny(ms, ls, k, t);
    }
    PrefixHasAny(ms, ls, k, ls[k].sink.handle);
    hide M.HasAny, Graph;
  }

  lemma UnlinkedStep(ms: seq<ModuleData>, ls: seq<Link>, b: Sockets, j: nat, h: Handle)
    requires Graph(ms, ls) && j < |ls| && (ls[j].AnySource? ==> ls[j].sink.handle in b)
    ensures Unlinked(b, ls, j + 1, h)
         == if ls[j].AnySource? then Unsubscribe(Unlinked(b, ls, j, h), h, ls[j].sink.handle)
            else Unlinked(b, ls, j, h)
  {
    forall t ensures M.HasAny(ls[..j + 1], t) <==>
                     M.HasAny(ls[..j], t) || (ls[j].AnySource? && ls[j].sink.handle == t) {
      PrefixHasAny(ms, ls, j, t);
    }
    PrefixHasAny(ms, ls, j, ls[j].sink.handle);
    hide M.HasAny, Graph;
  }

  /** The lookup by name of a link's sink finds the module the link was made with. */
  lemma SinkIsFound(ms: seq<ModuleData>, ls: seq<Link>, l: Link)
    requires Graph(ms, ls) && l in ls
    ensures M.FindByName(ms, l.sink.name) == Some(l.sink)
    ensures l.sink.handle in M.Handles(ms)
  {
    M.SameModule(ms, M.FindByName(ms, l.sink.name).value, l.sink);
  }

  /** Undoing a partial subscription of a new handle gives back the table it started from. */
  lemma RollbackIsExact(b: Sockets, ls: seq<Link>, k: nat, h: Handle)
    requires k <= |ls| && forall t :: t in b ==> b[t].subs[h] == 0
    ensures Unlinked(Subscribed(b, ls, k, h), ls, |ls|, h) == b
  {
    assert ls[..|ls|] == ls;
    forall t ensures M.HasAny(ls[..k], t) ==> M.HasAny(ls, t) {}
    hide M.HasAny;
    var r := Unlinked(Subscribed(b, ls, k, h), ls, |ls|, h);
    forall t | t in b ensures r[t] == b[t] {
      assert b[t].subs + multiset{h} - multiset{h} == b[t].subs;
      assert b[t].subs - multiset{h} == b[t].subs;
    }
  }

  // ----- The table while modules are being processed one by one -----

  lemma OthersStep(ms: seq<ModuleData>, i: nat, t: Handle)
    requires M.UniqueModules(ms) && i < |ms|
    ensures M.Others(ms[..i + 1], t)
         == if ms[i].handle == t then M.Others(ms[..i], t) else M.Others(ms[..i], t) + {ms[i].handle}
    ensures ms[i].handle !in M.Others(ms[..i], t)
  {
    assert ms[..i + 1] == ms[..i] + [ms[i]];
  }

  /** b with the sink subscribed by the other ones of the first m modules. */
  ghost function AllSubscribed(b: Sockets, ms: seq<ModuleData>, m: nat, t: Handle): Sockets
    requires t in b && m <= |ms|
  {
    M.SetSubs(b, t, b[t].subs + multiset(M.Others(ms[..m], t)))
  }

  /** b with the sink unsubscribed once from the other ones of the first m modules. */
  ghost function AllUnsubscribed(b: Sockets, ms: seq<ModuleData>, m: nat, t: Handle): Sockets
    requires t in b && m <= |ms|
  {
    M.SetSubs(b, t, b[t].subs - multiset(M.Others(ms[..m], t)))
  }

  lemma NoneDone(b: Sockets, ms: seq<ModuleData>, t: Handle)
    requires t in b
    ensures AllSubscribed(b, ms, 0, t) == b && AllUnsubscribed(b, ms, 0, t) == b
  {
    assert M.Others(ms[..0], t) == {};
    assert b[t].subs + multiset(M.Others(ms[..0], t)) == b[t].subs;
    assert b[t].subs - multiset(M.Others(ms[..0], t)) == b[t].subs;
  }

  lemma AllKeys(b: Sockets, ms: seq<ModuleData>, m: nat, t: Handle)
    requires t in b && m <= |ms|
    ensures AllSubscribed(b, ms, m, t).Keys == b.Keys && AllUnsubscribed(b, ms, m, t).Keys == b.Keys
  {
  }

  lemma OneMore(b: Sockets, ms: seq<ModuleData>, m: nat, t: Handle)
    requires t in b && M.UniqueModules(ms) && m < |ms|
    ensures AllSubscribed(b, ms, m + 1, t) == if ms[m].handle == t then AllSubscribed(b, ms, m, t)
                                              else Subscribe(AllSubscribed(b, ms, m, t), ms[m].handle, t)
    ensures AllUnsubscribed(b, ms, m + 1, t) == if ms[m].handle == t then AllUnsubscribed(b, ms, m, t)
                                                else Unsubscribe(AllUnsubscribed(b, ms, m, t), ms[m].handle, t)
  {
    OthersStep(ms, m, t);
    PlusStep(b[t].subs, M.Others(ms[..m], t), ms[m].handle);
    hide M.Others, M.UniqueModules;
  }

  lemma PlusStep(subs: multiset<Handle>, others: set<Handle>, h: Handle)
    requires h !in others
    ensures subs + multiset(others) + multiset{h} == subs + multiset(others + {h})
    ensures subs - multiset(others) - multiset{h} == subs - multiset(others + {h})
  {
  }

  lemma OthersSplit(ms: seq<ModuleData>, k: nat, t: Handle, h: Handle)
    requires M.UniqueModules(ms) && k <= |ms|
    ensures h in M.Others(ms, t) <==> h in M.Others(ms[..k], t) || h in M.Others(ms[k..], t)
    ensures !(h in M.Others(ms[..k], t) && h in M.Others(ms[k..], t))
  {
    assert ms == ms[..k] + ms[k..];
    if h in M.Others(ms[..k], t) {
      var i :| 0 <= i < k && ms[..k][i].handle == h;
      forall m | m in ms[k..] ensures m.handle != h {
        var j :| 0 <= j < |ms| - k && ms[k..][j] == m;
        assert ms[i].handle != ms[k + j].handle;
      }
    }
  }

  lemma TakenBack(subs: multiset<Handle>, done: set<Handle>, rest: set<Handle>, all: set<Handle>)
    requires forall h :: h in all <==> h in done || h in rest
    requires forall h :: h in done ==> h !in rest
    ensures subs + multiset(done) - multiset(all) == subs - multiset(rest)
  {
  }

  /** What is left after k subscriptions were made and all possible ones taken away. */
  lemma RolledBack(ms: seq<ModuleData>, k: nat, t: Handle, subs: multiset<Handle>)
    requires M.UniqueModules(ms) && k <= |ms|
    ensures subs + multiset(M.Others(ms[..k], t)) - multiset(M.Others(ms, t)) == subs - multiset(M.Others(ms[k..], t))
  {
    hide M.Others, M.UniqueModules;
    var (done, rest, all) := (M.Others(ms[..k], t), M.Others(ms[k..], t), M.Others(ms, t));
    forall h ensures h in all <==> h in done || h in rest {
      OthersSplit(ms, k, t, h);
    }
    forall h | h in done ensures h !in rest {
      OthersSplit(ms, k, t, h);
    }
    TakenBack(subs, done, rest, all);
  }

  lemma NoLinks(ls: seq<Link>)
    ensures forall t :: !M.HasAny(ls[..0], t)
  {
  }

  lemma FirstRefusedStep(ms: seq<ModuleData>, t: Handle, refused: set<(Handle, Handle)>, m: nat)
    requires m <= M.FirstRefused(ms, t, refused) && m < |ms|
    ensures m == M.FirstRefused(ms, t, refused) <==> ms[m].handle != t && (ms[m].handle, t) in refused
  {
  }

  lemma RolledBackTable(b: Sockets, ms: seq<ModuleData>, k: nat, t: Handle)
    requires t in b && M.UniqueModules(ms) && k <= |ms|
    ensures AllUnsubscribed(AllSubscribed(b, ms, k, t), ms, |ms|, t)
         == M.SetSubs(b, t, b[t].subs - multiset(M.Others(ms[k..], t)))
  {
    RolledBack(ms, k, t, b[t].subs);
    assert ms[..|ms|] == ms;
    hide M.Others, M.UniqueModules;
  }

  lemma AllDone(b: Sockets, ms: seq<ModuleData>, t: Handle)
    requires t in b
    ensures AllSubscribed(b, ms, |ms|, t) == M.SetSubs(b, t, b[t].subs + multiset(M.Others(ms, t)))
    ensures AllUnsubscribed(b, ms, |ms|, t) == M.SetSubs(b, t, b[t].subs - multiset(M.Others(ms, t)))
  {
    assert ms[..|ms|] == ms;
  }

  lemma UnsubscribeAbsent(s: Sockets, source: Handle, sink: Handle)
    requires sink in s && source !in s[sink].subs
    ensures Unsubscribe(s, source, sink) == s
  {
    assert s[sink].subs - multiset{source} == s[sink].subs;
  }

  lemma SubscribeUnsubscribe(s: Sockets, source: Handle, sink: Handle)
    requires sink in s
    ensures Unsubscribe(Subscribe(s, source, sink), source, sink) == s
  {
    assert s[sink].subs + multiset{source} - multiset{source} == s[sink].subs;
  }

  lemma AppendLink(ms: seq<ModuleData>, ls: seq<Link>, l: Link)
    requires Graph(ms, ls) && l.sink in ms && (l.Regular? ==> l.source in ms)
    requires if l.AnySource? then !M.HasAny(ls, l.sink.handle) else !M.HasRegular(ls, l.source.handle, l.sink.handle)
    ensures Graph(ms, ls + [l])
  {
    assert l !in ls;
  }

  // ----- The table around the addition of a module -----

  lemma FreshHandle(s: M.State, h: Handle, guid: Guid)
    requires M.WellFormed(s) && M.Safe(s) && h !in s.sockets
    ensures forall t :: t in s.sockets ==> s.sockets[t].subs[h] == 0
    ensures !M.HasAny(s.links, h)
  {
    M.DeadHandleUnlinked(s, h);
    hide M.HasRegular, M.HasAny;
    forall t | t in s.sockets ensures s.sockets[t].subs[h] == 0 {
      assert M.Deficit(s, h, t) >= 0;
    }
  }

  lemma AttachedTable(b: Sockets, ls: seq<Link>, h: Handle, guid: Guid)
    requires h !in b && !M.HasAny(ls, h)
    ensures Subscribed(b[h := Socket(guid, multiset{}, [])], ls, |ls|, h) == M.Attach(b, ls, h, guid)
  {
    assert ls[..|ls|] == ls;
    hide M.HasAny;
  }

  lemma DetachedTable(b: Sockets, h: Handle, guid: Guid, dropped: set<Handle>)
    requires h !in b
    ensures Detach(b[h := Socket(guid, multiset{}, [])], h, dropped) == Offer(b, QuitFrame(guid), dropped)
  {
    hide Matches, QuitFrame;
  }

  lemma AppendModule(ms: seq<ModuleData>, ls: seq<Link>, m: ModuleData)
    requires Graph(ms, ls) && m.handle !in M.Handles(ms) && m.handle != NULL && m.name != M.GATEWAY_ALL
    requires M.FindByName(ms, m.name) == None
    ensures Graph(ms + [m], ls) && M.Handles(ms + [m]) == M.Handles(ms) + {m.handle}
  {
  }

  // ----- The table while a module is being removed -----

  /** VECTOR_find_if with link_name_both_find */
  function MentionIndex(ls: seq<Link>, name: string): (i: nat)
    ensures i <= |ls| && (i < |ls| ==> M.Mentions(ls[i], name))
    ensures i == |ls| ==> M.Surviving(ls, name) == ls
  {
    if ls == [] || M.Mentions(ls[0], name) then 0 else 1 + MentionIndex(ls[1..], name)
  }

  lemma {:induction false} SurvivingErase(ls: seq<Link>, i: nat, name: string)
    requires i < |ls| && M.Mentions(ls[i], name)
    ensures M.Surviving(ls[..i] + ls[i + 1..], name) == M.Surviving(ls, name)
  {
    var r := ls[..i] + ls[i + 1..];
    if i == 0 {
      assert r == ls[1..];
    } else {
      assert r[0] == ls[0] && r[1..] == ls[1..][..i - 1] + ls[1..][i..];
      SurvivingErase(ls[1..], i - 1, name);
    }
  }

  /**
   * c is b with only subscriptions from h, or to its own socket, taken away; at most the regular
   * links from h that remain in ls still hold one.
   */
  ghost predicate Erasing(b: Sockets, c: Sockets, ls: seq<Link>, h: Handle) {
    && c.Keys == b.Keys && (h in b ==> c[h].guid == b[h].guid)
    && forall t :: t in b && t != h ==>
         ErasingAt(b[t], c[t], h) && c[t].subs[h] <= if M.HasRegular(ls, h, t) then 1 else 0
  }

  ghost predicate ErasingAt(b: Socket, c: Socket, h: Handle) {
    c.guid == b.guid && c.inbox == b.inbox && c.subs[h := 0] == b.subs[h := 0]
  }

  lemma ErasingStarts(s: M.State, h: Handle)
    requires M.WellFormed(s) && M.Safe(s) && h in s.sockets
    ensures Erasing(s.sockets, Unlinked(s.sockets, s.links, |s.links|, h), s.links, h)
  {
    var c := Unlinked(s.sockets, s.links, |s.links|, h);
    assert s.links[..|s.links|] == s.links;
    hide M.HasAny, M.HasRegular;
    forall t | t in s.sockets && t != h
      ensures ErasingAt(s.sockets[t], c[t], h) && c[t].subs[h] <= if M.HasRegular(s.links, h, t) then 1 else 0
    {
      assert M.Deficit(s, h, t) >= 0;
      assert (s.sockets[t].subs - multiset{h})[h := 0] == s.sockets[t].subs[h := 0];
    }
  }

  /** Of the sockets that stay, removing a link that names the module only touches its subscription. */
  lemma MentionedLink(s: M.State, i: nat, m: ModuleData, t: Handle)
    requires M.WellFormed(s) && m in s.modules && i < |s.links| && M.Mentions(s.links[i], m.name)
    requires t in s.sockets && t != m.handle
    ensures M.RemoveLinkAt(s, i).sockets.Keys == s.sockets.Keys
    ensures M.RemoveLinkAt(s, i).sockets[t]
         == if s.links[i].Regular? && s.links[i].source.handle == m.handle && s.links[i].sink.handle == t
            then s.sockets[t].(subs := s.sockets[t].subs - multiset{m.handle})
            else s.sockets[t]
    ensures m.handle in s.sockets && M.RemoveLinkAt(s, i).sockets[m.handle].guid == s.sockets[m.handle].guid
  {
    var l := s.links[i];
    assert l in s.links;
    M.SameModule(s.modules, l.sink, m);
    if l.Regular? { M.SameModule(s.modules, l.source, m); }
    hide M.UniqueModules, M.UniqueLinks, M.Others;
  }

  lemma OneTakenAway(subs: multiset<Handle>, h: Handle)
    ensures (subs - multiset{h})[h := 0] == subs[h := 0]
    ensures (subs - multiset{h})[h] == if subs[h] == 0 then 0 else subs[h] - 1
  {
  }

  lemma ErasingStepAt(b: Sockets, s: M.State, i: nat, m: ModuleData, t: Handle)
    requires M.WellFormed(s) && m in s.modules && i < |s.links| && M.Mentions(s.links[i], m.name)
    requires t in b && t in s.sockets && t != m.handle && ErasingAt(b[t], s.sockets[t], m.handle)
    requires s.sockets[t].subs[m.handle] <= if M.HasRegular(s.links, m.handle, t) then 1 else 0
    ensures var r := M.RemoveLinkAt(s, i);
            && r.sockets.Keys == s.sockets.Keys && ErasingAt(b[t], r.sockets[t], m.handle)
            && r.sockets[t].subs[m.handle] <= if M.HasRegular(r.links, m.handle, t) then 1 else 0
  {
    var (r, h) := (M.RemoveLinkAt(s, i), m.handle);
    assert r.links == s.links[..i] + s.links[i + 1..];
    MentionedLink(s, i, m, t);
    M.LinksAfterRemove(s, i, h, t);
    OneTakenAway(s.sockets[t].subs, h);
    hide M.RemoveLinkAt, M.WellFormed, M.HasRegular, M.HasAny, M.Mentions;
  }

  lemma ErasingStep(b: Sockets, s: M.State, i: nat, m: ModuleData)
    requires M.WellFormed(s) && m in s.modules && i < |s.links| && M.Mentions(s.links[i], m.name)
    requires Erasing(b, s.sockets, s.links, m.handle) && m.handle in b
    ensures Erasing(b, M.RemoveLinkAt(s, i).sockets, M.RemoveLinkAt(s, i).links, m.handle)
  {
    var r := M.RemoveLinkAt(s, i);
    SocketKept(s, i, m);
    forall t | t in b && t != m.handle
      ensures ErasingAt(b[t], r.sockets[t], m.handle)
      ensures r.sockets[t].subs[m.handle] <= if M.HasRegular(r.links, m.handle, t) then 1 else 0
    {
      hide M.RemoveLinkAt, M.WellFormed, M.HasRegular, M.Mentions, ErasingAt;
      ErasingStepAt(b, s, i, m, t);
    }
    hide M.RemoveLinkAt, M.WellFormed, M.HasRegular, M.Mentions, ErasingAt;
  }

  /** In the middle of removing m, whose links are being erased one by one from the table b. */
  ghost predicate Removing(b: Sockets, s: M.State, m: ModuleData) {
    M.WellFormed(s) && m in s.modules && m.handle in b && Erasing(b, s.sockets, s.links, m.handle)
  }

  /** Removing a link that names the module leaves other pairs alone. */
  lemma RemovingStep(b: Sockets, s: M.State, i: nat, m: ModuleData)
    requires Removing(b, s, m) && i < |s.links| && M.Mentions(s.links[i], m.name)
    ensures M.WellFormed(s) && Removing(b, M.RemoveLinkAt(s, i), m)
    ensures M.Surviving(M.RemoveLinkAt(s, i).links, m.name) == M.Surviving(s.links, m.name)
  {
    ErasingStep(b, s, i, m);
    M.RemoveLinkAtWellFormed(s, i);
    SurvivingErase(s.links, i, m.name);
    hide M.WellFormed, Erasing, M.Surviving, M.Mentions;
  }

  lemma RemovingEnds(b: Sockets, s: M.State, m: ModuleData, dropped: set<Handle>)
    requires Removing(b, s, m) && M.Surviving(s.links, m.name) == s.links
    ensures m.handle in s.sockets
    ensures Detach(s.sockets, m.handle, dropped) == Detach(M.Forget(b, m.handle), m.handle, dropped)
  {
    NoLinksLeft(s.modules, s.links, m);
    ErasingEnds(b, s.sockets, s.links, m.handle, dropped);
    hide M.WellFormed, M.HasRegular, Detach, M.Forget, M.Surviving;
  }

  lemma SocketKept(s: M.State, i: nat, m: ModuleData)
    requires M.WellFormed(s) && m in s.modules && i < |s.links|
    ensures M.RemoveLinkAt(s, i).sockets.Keys == s.sockets.Keys
    ensures m.handle in s.sockets && M.RemoveLinkAt(s, i).sockets[m.handle].guid == s.sockets[m.handle].guid
  {
  }

  lemma ErasingEnds(b: Sockets, c: Sockets, ls: seq<Link>, h: Handle, dropped: set<Handle>)
    requires Erasing(b, c, ls, h) && h in b
    requires forall t :: !M.HasRegular(ls, h, t)
    ensures Detach(c, h, dropped) == Detach(M.Forget(b, h), h, dropped)
  {
    hide Matches, M.HasRegular, QuitFrame;
    var f := M.Forget(b, h);
    forall t | t in b && t != h ensures c[t] == f[t] {
      assert ErasingAt(b[t], c[t], h);
      assert c[t].subs[h := 0] == c[t].subs;
    }
  }

  lemma NoLinksLeft(ms: seq<ModuleData>, ls: seq<Link>, m: ModuleData)
    requires M.Surviving(ls, m.name) == ls && Graph(ms, ls) && m in ms
    ensures forall t :: !M.HasRegular(ls, m.handle, t)
  {
    forall l | l in ls && l.Regular? ensures l.source.handle != m.handle {
      M.SameModule(ms, l.source, m);
    }
  }

  lemma ForgetKeys(b: Sockets, h: Handle)
    ensures M.Forget(b, h).Keys == b.Keys
  {
  }

  class Gateway {
    var modules: seq<ModuleData>
    var links: seq<Link>
    /** Libraries loaded and module instances created, minus those unloaded and destroyed. */
    var loaded: int
    var created: int
    const broker: Broker

    ghost function State(): M.State
      reads this, broker
    {
      M.State(modules, links, broker.Table(), broker.refCount, loaded, created)
    }

    ghost predicate Valid()
      reads this, broker
    {
      broker.Valid() && M.WellFormed(State()) && M.Safe(State())
    }

    /** What the loops over modules and links need; it also holds in the middle of an operation. */
    ghost predicate Attached()
      reads this, broker
    {
      broker.Valid() && Graph(modules, links) && broker.Table().Keys == M.Handles(modules)
    }

    constructor ()
      ensures Valid() && State() == M.INITIAL && fresh(broker)
    {
      modules, links, loaded, created := [], [], 0, 0;
      broker := new Broker();
    }

    /** remove_one_link_from_broker */
    method RemoveOneLink(source: Handle, sink: Handle) returns (ok: bool)
      requires broker.Valid() && source in broker.Table() && sink in broker.Table()
      modifies broker`modules
      ensures broker.Valid() && broker.Table() == Unsubscribe(old(broker.Table()), source, sink)
    {
      var r := broker.RemoveLink(source, sink);
      if !r.OK? {
        UnsubscribeAbsent(broker.Table(), source, sink);
      }
      ok := r.OK?;
    }

    /** add_one_link_to_broker */
    method AddOneLink(source: Handle, sink: Handle, refused: set<(Handle, Handle)>) returns (ok: bool)
      requires broker.Valid() && source in broker.Table() && sink in broker.Table()
      modifies broker`modules
      ensures broker.Valid() && (ok <==> (source, sink) !in refused)
      ensures broker.Table() == if ok then Subscribe(old(broker.Table()), source, sink) else old(broker.Table())
    {
      var r := broker.AddLink(source, sink, (source, sink) !in refused);
      ok := r.OK?;
    }

    /** remove_module_from_any_source */
    method RemoveModuleFromAnySource(m: ModuleData)
      requires Attached() && m.handle in broker.Table()
      modifies broker`modules
      ensures Attached() && broker.Table() == Unlinked(old(broker.Table()), links, |links|, m.handle)
    {
      hide M.HasAny, Graph, M.Handles, Broker.Valid, Broker.Table;
      ghost var b := broker.Table();
      assert Unlinked(b, links, 0, m.handle) == b by { NoLinks(links); }
      var link := 0;
      while link < |links|
        invariant 0 <= link <= |links|
        invariant broker.Valid() && broker.Table() == Unlinked(b, links, link, m.handle)
      {
        assert links[link] in links;
        SinkIsFound(modules, links, links[link]);
        UnlinkedStep(modules, links, b, link, m.handle);
        if links[link].AnySource? {
          var sink := M.FindByName(modules, links[link].sink.name);
          if sink.Some? {
            var _ := RemoveOneLink(m.handle, sink.value.handle);
          }
        }
        link := link + 1;
      }
    }

    /** add_module_to_any_source: on a refusal the subscriptions made so far are taken back. */
    method AddModuleToAnySource(m: ModuleData, refused: set<(Handle, Handle)>) returns (ok: bool)
      requires Attached() && m.handle in broker.Table()
      requires forall t :: t in broker.Table() ==> broker.Table()[t].subs[m.handle] == 0
      modifies broker`modules
      ensures Attached() && (ok <==> !M.AnyRefused(links, m.handle, refused))
      ensures broker.Table() == if ok then Subscribed(old(broker.Table()), links, |links|, m.handle)
                                else old(broker.Table())
    {
      hide M.HasAny, Graph, M.Handles, Broker.Valid, Broker.Table, M.AnyRefused;
      var link;
      ok, link := SubscribeToAnySource(m, refused);
      if !ok {
        RemoveModuleFromAnySource(m);
        RollbackIsExact(old(broker.Table()), links, link, m.handle);
      }
    }

    /** The loop of add_module_to_any_source; link is where it stopped. */
    method SubscribeToAnySource(m: ModuleData, refused: set<(Handle, Handle)>) returns (ok: bool, link: nat)
      requires Attached() && m.handle in broker.Table()
      modifies broker`modules
      ensures Attached() && (ok <==> !M.AnyRefused(links, m.handle, refused))
      ensures link <= |links| && (ok ==> link == |links|)
      ensures broker.Table() == Subscribed(old(broker.Table()), links, link, m.handle)
    {
      hide M.HasAny, Graph, M.Handles, Broker.Valid, Broker.Table;
      ghost var b := broker.Table();
      assert Subscribed(b, links, 0, m.handle) == b by { NoLinks(links); }
      ok, link := true, 0;
      while link < |links|
        invariant 0 <= link <= |links|
        invariant broker.Valid() && broker.Table() == Subscribed(b, links, link, m.handle)
        invariant forall i :: 0 <= i < link && links[i].AnySource? ==> (m.handle, links[i].sink.handle) !in refused
      {
        assert links[link] in links;
        SinkIsFound(modules, links, links[link]);
        SubscribedStep(modules, links, b, link, m.handle);
        if links[link].AnySource? {
          var sink := M.FindByName(modules, links[link].sink.name);
          if sink == None {
            return false, link;
          }
          ok := AddOneLink(m.handle, sink.value.handle, refused);
          if !ok {
            return;
          }
        }
        link := link + 1;
      }
    }

    /** gateway_addmodule_internal */
    method AddModule(path: Option<string>, name: Option<string>, env: M.AddEnv) returns (handle: Handle)
      requires Valid() && env.handle !in broker.Table()
      modifies this, broker
      ensures Valid()
      ensures path == None || name == None ==> handle == NULL && State() == old(State())
      ensures path.Some? && name.Some? ==> (State(), handle) == M.AddModule(old(State()), name.value, env)
      ensures handle == NULL ==> M.SameRouting(old(State()), State())
    {
      if path == None || name == None {
        return NULL;
      }
      M.AddModuleKeeps(State(), name.value, env);
      M.FailedAddIsSameRouting(State(), name.value, env);
      hide M.WellFormed, M.Safe, M.AddModule, M.SameRouting;
      handle := AddNamedModule(name.value, env);
    }

    method AddNamedModule(name: string, env: M.AddEnv) returns (handle: Handle)
      requires Valid() && env.handle !in broker.Table()
      modifies this, broker
      ensures broker.Valid() && (State(), handle) == M.AddModule(old(State()), name, env)
    {
      assert State() == M.State(modules, links, broker.Table(), broker.refCount, |modules|, |modules|);
      hide M.WellFormed, M.Safe, M.Attach, Offer, QuitFrame, M.FindByName, M.AnyRefused, Broker.Valid, Broker.Table;
      if name == M.GATEWAY_ALL {
        return NULL;
      }
      if M.FindByName(modules, name).Some? {
        return NULL;
      }
      if !env.alloc || !env.load {
        return NULL;
      }
      loaded := loaded + 1;
      if env.handle == NULL {
        loaded := loaded - 1;
        return NULL;
      }
      created := created + 1;
      handle := AttachModule(name, env);
      if handle == NULL {
        created := created - 1;
        loaded := loaded - 1;
      }
    }

    /** The part of gateway_addmodule_internal after Module_Create. */
    method AttachModule(name: string, env: M.AddEnv) returns (handle: Handle)
      requires broker.Valid()
      requires M.WellFormed(M.State(modules, links, broker.Table(), broker.refCount, |modules|, |modules|))
      requires M.Safe(M.State(modules, links, broker.Table(), broker.refCount, |modules|, |modules|))
      requires env.handle !in broker.Table() && env.handle != NULL
      requires name != M.GATEWAY_ALL && M.FindByName(modules, name) == None
      modifies this`modules, broker
      ensures broker.Valid()
      ensures handle == if env.attach && env.copy && env.push && !M.AnyRefused(links, env.handle, env.refused)
                        then env.handle else NULL
      ensures handle == NULL ==>
                && modules == old(modules) && broker.refCount == old(broker.refCount)
                && broker.Table() == if env.attach then Offer(old(broker.Table()), QuitFrame(env.guid), env.dropped)
                                     else old(broker.Table())
      ensures handle != NULL ==>
                && modules == old(modules) + [M.ModuleData(name, handle)]
                && broker.refCount == old(broker.refCount) + 1
                && broker.Table() == M.Attach(old(broker.Table()), links, handle, env.guid)
    {
      ghost var b := broker.Table();
      var h := env.handle;
      var m := M.ModuleData(name, h);
      FreshHandle(M.State(modules, links, b, broker.refCount, |modules|, |modules|), h, env.guid);
      AttachedTable(b, links, h, env.guid);
      DetachedTable(b, h, env.guid, env.dropped);
      AppendModule(modules, links, m);
      hide M.WellFormed, M.Safe, M.Attach, M.HasAny, Graph, M.Handles, Broker.Valid, Broker.Table, Offer, Detach,
           M.AnyRefused;
      var r := broker.AddModule(h, true, env.guid, env.attach);
      if !r.OK? {
        return NULL;
      }
      if !env.copy {
        r := broker.RemoveModule(h, true, env.dropped);
        return NULL;
      }
      broker.IncRef();
      if !env.push {
        var _ := broker.DecRef();
        r := broker.RemoveModule(h, true, env.dropped);
        return NULL;
      }
      modules := modules + [m];
      var ok := AddModuleToAnySource(m, env.refused);
      if !ok {
        var _ := broker.DecRef();
        r := broker.RemoveModule(h, true, env.dropped);
        modules := modules[..|modules| - 1];
        return NULL;
      }
      return h;
    }

    /** remove_any_source_link: unsubscribes the sink from every other module. */
    method RemoveAnySourceLink(sinkName: string)
      requires Attached() && M.FindByName(modules, sinkName).Some?
      modifies broker`modules
      ensures Attached()
      ensures var t := M.FindByName(modules, sinkName).value.handle;
              && t in old(broker.Table())
              && broker.Table() == AllUnsubscribed(old(broker.Table()), modules, |modules|, t)
    {
      var sink := M.FindByName(modules, sinkName);
      assert sink.value.handle in M.Handles(modules);
      hide Graph, M.Handles, AllUnsubscribed, Broker.Valid, Broker.Table, M.FindByName;
      UnsubscribeAll(sink.value.handle);
    }

    method UnsubscribeAll(t: Handle)
      requires Attached() && t in broker.Table()
      modifies broker`modules
      ensures Attached()
      ensures broker.Table() == AllUnsubscribed(old(broker.Table()), modules, |modules|, t)
    {
      ghost var b := broker.Table();
      NoneDone(b, modules, t);
      assert M.UniqueModules(modules) && b.Keys == M.Handles(modules);
      AllKeys(b, modules, |modules|, t);
      hide AllSubscribed, AllUnsubscribed, Graph, M.UniqueModules, M.Handles, Broker.Valid, Broker.Table;
      var m := 0;
      while m < |modules|
        invariant 0 <= m <= |modules| && broker.Valid()
        invariant broker.Table() == AllUnsubscribed(b, modules, m, t)
      {
        UnsubscribeNext(b, m, t);
        m := m + 1;
      }
    }

    method UnsubscribeNext(ghost b: Sockets, m: nat, t: Handle)
      requires broker.Valid() && M.UniqueModules(modules) && m < |modules|
      requires t in b && b.Keys == M.Handles(modules) && broker.Table() == AllUnsubscribed(b, modules, m, t)
      modifies broker`modules
      ensures broker.Valid() && broker.Table() == AllUnsubscribed(b, modules, m + 1, t)
    {
      OneMore(b, modules, m, t);
      AllKeys(b, modules, m, t);
      assert modules[m].handle in b;
      hide AllSubscribed, AllUnsubscribed, M.UniqueModules, M.Handles, Broker.Valid, Broker.Table;
      hide Subscribe, Unsubscribe;
      if modules[m].handle != t {
        var _ := RemoveOneLink(modules[m].handle, t);
      }
    }

    /** add_any_source_link: the link is recorded first, then the other modules are subscribed. */
    method AddAnySourceLink(sinkName: string, env: M.LinkEnv) returns (ok: bool)
      requires Valid() && M.LinkIndex(links, M.GATEWAY_ALL, sinkName) == |links|
      modifies this`links, broker`modules
      ensures broker.Valid() && (State(), ok) == M.AddAnySourceLink(old(State()), sinkName, env)
    {
      var sink := M.FindByName(modules, sinkName);
      if sink == None || !env.push {
        return false;
      }
      var t := sink.value.handle;
      assert t in broker.Table();
      M.NewAny(State(), sink.value);
      AppendLink(modules, links, M.AnySource(sink.value));
      assert Attached();
      hide M.WellFormed, M.Safe, M.Handles, M.Others, Graph, M.UniqueModules, Broker.Valid, Broker.Table, M.FindByName,
           M.HasAny, M.HasRegular;
      links := links + [M.AnySource(sink.value)];
      ok := SubscribeOrRollBack(sinkName, env.refused);
      if !ok {
        links := links[..|links| - 1];
      }
    }

    method SubscribeOrRollBack(sinkName: string, refused: set<(Handle, Handle)>) returns (ok: bool)
      requires Attached() && M.FindByName(modules, sinkName).Some?
      modifies broker`modules
      ensures Attached()
      ensures var t := M.FindByName(modules, sinkName).value.handle;
              var k := M.FirstRefused(modules, t, refused);
              && t in old(broker.Table()) && (ok <==> k == |modules|)
              && var subs := old(broker.Table())[t].subs;
                 broker.Table() == M.SetSubs(old(broker.Table()), t,
                   if ok then subs + multiset(M.Others(modules, t)) else subs - multiset(M.Others(modules[k..], t)))
    {
      var t := M.FindByName(modules, sinkName).value.handle;
      assert t in M.Handles(modules) && M.UniqueModules(modules);
      hide M.Handles, M.Others, Graph, Broker.Valid, Broker.Table, M.FindByName, M.UniqueModules, M.SetSubs,
           AllSubscribed, AllUnsubscribed;
      ghost var b := broker.Table();
      AllDone(b, modules, t);
      var m;
      ok, m := SubscribeAll(t, refused);
      if !ok {
        RolledBackTable(b, modules, m, t);
        RemoveAnySourceLink(sinkName);
      }
    }

    /** The loop of add_any_source_link; m is where it stopped. */
    method SubscribeAll(t: Handle, refused: set<(Handle, Handle)>) returns (ok: bool, m: nat)
      requires Attached() && t in broker.Table()
      modifies broker`modules
      ensures broker.Valid() && broker.Table().Keys == old(broker.Table()).Keys
      ensures m == M.FirstRefused(modules, t, refused) && (ok <==> m == |modules|)
      ensures broker.Table() == AllSubscribed(old(broker.Table()), modules, m, t)
    {
      ghost var b := broker.Table();
      NoneDone(b, modules, t);
      assert M.UniqueModules(modules) && b.Keys == M.Handles(modules);
      hide Graph, Gateway.Attached;
      hide AllSubscribed, AllUnsubscribed, M.UniqueModules, M.Handles, M.FirstRefused, Broker.Valid, Broker.Table;
      ok, m := true, 0;
      while m < |modules|
        invariant m <= M.FirstRefused(modules, t, refused) && broker.Valid()
        invariant broker.Table() == AllSubscribed(b, modules, m, t)
        invariant ok
      {
        FirstRefusedStep(modules, t, refused, m);
        ok := SubscribeNext(b, m, t, refused);
        if !ok {
          break;
        }
        m := m + 1;
      }
      AllKeys(b, modules, m, t);
    }

    method SubscribeNext(ghost b: Sockets, m: nat, t: Handle, refused: set<(Handle, Handle)>) returns (ok: bool)
      requires broker.Valid() && M.UniqueModules(modules) && m < |modules|
      requires t in b && b.Keys == M.Handles(modules) && broker.Table() == AllSubscribed(b, modules, m, t)
      modifies broker`modules
      ensures broker.Valid() && (ok <==> modules[m].handle == t || (modules[m].handle, t) !in refused)
      ensures broker.Table() == AllSubscribed(b, modules, if ok then m + 1 else m, t)
    {
      OneMore(b, modules, m, t);
      AllKeys(b, modules, m, t);
      assert modules[m].handle in b;
      hide AllSubscribed, AllUnsubscribed, M.UniqueModules, M.Handles, Broker.Valid, Broker.Table;
      hide Subscribe, Unsubscribe;
      ok := true;
      if modules[m].handle != t {
        ok := AddOneLink(modules[m].handle, t, refused);
      }
    }

    /** add_regular_link: the broker is told first, the link recorded after. */
    method AddRegularLink(source: string, sink: string, env: M.LinkEnv) returns (ok: bool)
      requires Valid() && source != M.GATEWAY_ALL && M.LinkIndex(links, source, sink) == |links|
      modifies this`links, broker`modules
      ensures broker.Valid() && (State(), ok) == M.AddRegularLink(old(State()), source, sink, env)
    {
      var a := M.FindByName(modules, source);
      if a == None {
        return false;
      }
      var b := M.FindByName(modules, sink);
      if b == None {
        return false;
      }
      var (x, y) := (a.value.handle, b.value.handle);
      assert x in broker.Table() && y in broker.Table();
      hide M.WellFormed, M.Safe, M.Handles, M.FindByName, Broker.Valid, Broker.Table;
      var added := AddOneLink(x, y, env.refused);
      if !added {
        return false;
      }
      if !env.push {
        SubscribeUnsubscribe(old(broker.Table()), x, y);
        var _ := RemoveOneLink(x, y);
        return false;
      }
      links := links + [M.Regular(a.value, b.value)];
      return true;
    }

    /** Gateway_LL_AddLink with gateway_addlink_internal */
    method AddLink(source: Option<string>, sink: Option<string>, env: M.LinkEnv) returns (ok: bool)
      requires Valid()
      modifies this`links, broker`modules
      ensures Valid()
      ensures source == None || sink == None ==> !ok && State() == old(State())
      ensures source.Some? && sink.Some? ==> (State(), ok) == M.AddLink(old(State()), source.value, sink.value, env)
    {
      if source == None || sink == None {
        return false;
      }
      if M.LinkIndex(links, source.value, sink.value) < |links| {
        return false;
      }
      if source.value == M.GATEWAY_ALL {
        M.AddAnySourceKeeps(State(), sink.value, env);
        ok := AddAnySourceLink(sink.value, env);
      } else {
        M.AddRegularKeeps(State(), source.value, sink.value, env);
        ok := AddRegularLink(source.value, sink.value, env);
      }
      hide M.WellFormed, M.Safe, M.AddAnySourceLink, M.AddRegularLink, Broker.Valid, Broker.Table;
    }

    /** gateway_removelink_internal */
    method RemoveLinkInternal(i: nat)
      requires broker.Valid() && M.WellFormed(State()) && i < |links|
      modifies this`links, broker`modules
      ensures broker.Valid() && State() == M.RemoveLinkAt(old(State()), i)
    {
      var l := links[i];
      assert l in links;
      SinkIsFound(modules, links, l);
      assert l.sink.handle in broker.Table() && (l.Regular? ==> l.source.handle in broker.Table());
      assert Attached();
      hide M.WellFormed, Graph, M.Handles, M.Others, M.FindByName, Broker.Valid, Broker.Table;
      hide AllSubscribed, AllUnsubscribed;
      if l.AnySource? {
        AllDone(broker.Table(), modules, l.sink.handle);
        RemoveAnySourceLink(l.sink.name);
      } else {
        var _ := RemoveOneLink(l.source.handle, l.sink.handle);
      }
      links := links[..i] + links[i + 1..];
    }

    /** Gateway_LL_RemoveLink */
    method RemoveLink(source: string, sink: string)
      requires Valid()
      modifies this`links, broker`modules
      ensures Valid() && State() == M.RemoveLink(old(State()), source, sink)
    {
      var i := M.LinkIndex(links, source, sink);
      if i < |links| {
        M.RemoveLinkAtKeeps(State(), i);
        RemoveLinkInternal(i);
      }
      hide M.WellFormed, M.Safe, M.RemoveLinkAt;
    }

    /** gateway_removemodule_internal */
    method RemoveModuleInternal(i: nat, dropped: set<Handle>)
      requires Valid() && i < |modules|
      modifies this, broker
      ensures Valid() && State() == M.RemoveModuleAt(old(State()), i, dropped)
    {
      M.RemoveModuleKeeps(State(), i, dropped);
      hide M.WellFormed, M.Safe, M.RemoveModuleAt, M.Expected, Broker.Valid, Broker.Table;
      RemoveAndDetach(i, dropped);
    }

    method RemoveAndDetach(i: nat, dropped: set<Handle>)
      requires Valid() && i < |modules|
      modifies this, broker
      ensures broker.Valid() && State() == M.RemoveModuleAt(old(State()), i, dropped)
    {
      var m := modules[i];
      assert m in modules && broker.refCount > 0;
      ForgetKeys(broker.Table(), m.handle);
      hide M.WellFormed, M.Safe, M.Forget, Detach, M.Surviving, M.Mentions, M.Handles, Broker.Valid, Broker.Table;
      EraseLinks(m, dropped);
      var r := broker.RemoveModule(m.handle, true, dropped);
      var _ := broker.DecRef();
      created := created - 1;
      loaded := loaded - 1;
      modules := modules[..i] + modules[i + 1..];
    }

    /** The two removal passes: wildcard sinks first, then every link that names the module. */
    method EraseLinks(m: ModuleData, ghost dropped: set<Handle>)
      requires Valid() && m in modules
      modifies this`links, broker`modules
      ensures broker.Valid() && links == M.Surviving(old(links), m.name)
      ensures m.handle in broker.Table() && m.handle in old(broker.Table())
      ensures Detach(broker.Table(), m.handle, dropped)
           == Detach(M.Forget(old(broker.Table()), m.handle), m.handle, dropped)
    {
      ghost var b := broker.Table();
      assert m.handle in b;
      ErasingStarts(State(), m.handle);
      RemoveModuleFromAnySource(m);
      assert Removing(b, State(), m) by { hide M.Safe, Erasing, Unlinked; }
      hide M.WellFormed, M.Safe, Removing, Erasing, Unlinked, Detach, M.Forget, M.Mentions, M.Surviving;
      hide Broker.Valid, Broker.Table, Gateway.Attached;
      var link := MentionIndex(links, m.name);
      while link < |links|
        invariant broker.Valid() && Removing(b, State(), m)
        invariant modules == old(modules)
        invariant link == MentionIndex(links, m.name)
        invariant M.Surviving(links, m.name) == M.Surviving(old(links), m.name)
        decreases |links|
      {
        RemovingStep(b, State(), link, m);
        RemoveLinkInternal(link);
        link := MentionIndex(links, m.name);
      }
      RemovingEnds(b, State(), m, dropped);
    }

    /** Gateway_LL_RemoveModule */
    method RemoveModule(h: Handle, dropped: set<Handle>)
      requires Valid()
      modifies this, broker
      ensures Valid() && State() == M.RemoveModule(old(State()), h, dropped)
    {
      hide M.WellFormed, M.Safe, M.RemoveModuleAt;
      var i := M.IndexOfHandle(modules, h);
      if i < |modules| {
        RemoveModuleInternal(i, dropped);
      }
    }

    /** Gateway_LL_RemoveModuleByName */
    method RemoveModuleByName(name: Option<string>, dropped: set<Handle>) returns (ok: bool)
      requires Valid()
      modifies this, broker
      ensures Valid()
      ensures name == None ==> !ok && State() == old(State())
      ensures name.Some? ==> (State(), ok) == M.RemoveModuleByName(old(State()), name.value, dropped)
    {
      hide M.WellFormed, M.Safe, M.RemoveModule;
      if name == None || M.FindByName(modules, name.value) == None {
        return false;
      }
      RemoveModule(M.FindByName(modules, name.value).value.handle, dropped);
      return true;
    }

    /** Gateway_LL_GetModuleList */
    method GetModuleList(alloc: bool, failed: set<nat>) returns (r: Option<seq<S.Listed>>)
      requires Valid()
      ensures r == None <==> !alloc || exists j :: 0 <= j < |links| && S.Unlistable(links, j, failed)
      ensures r.Some? ==> S.IsListing(r.value, modules, links)
    {
      r := S.GetModuleList(modules, links, alloc, failed);
    }

    /** gateway_destroy_internal: every link, then every module, then the gateway's own reference. */
    method Destroy(dropped: set<Handle>) returns (freed: bool)
      requires Valid()
      modifies this, broker
      ensures State() == M.State([], [], map[], 0, 0, 0) && freed
    {
      while |links| > 0
        invariant Valid()
        decreases |links|
      {
        M.RemoveLinkAtKeeps(State(), 0);
        RemoveLinkInternal(0);
      }
      while |modules| > 0
        invariant Valid() && links == []
        decreases |modules|
      {
        RemoveModuleInternal(0, dropped);
      }
      assert broker.Table() == map[];
      freed := broker.DecRef();
    }
  }
}
