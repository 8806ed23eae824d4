/** The additive half of a reconcile: creating and correcting targets, TPGs, portals,
    LUNs and ACLs (lio/iscsi.go:11-287).  Nothing here removes an object. */
module Ensure {
  import opened LioConfig
  import opened Kernel
  import opened Topology

  // ----- per-TPG forms of the pass-wide predicates -----

  ghost predicate LunsToward(l0: map<int, Option<Key>>, l1: map<int, Option<Key>>, p: Path, goal: Config) {
    forall i | i in l1 && l1[i].Some? :: (i in l0 && l0[i] == l1[i]) || Goal(goal, p, i, l1[i].value)
  }

  /** No LUN of the list is live with another backstore. */
  ghost predicate LunClear(live: map<int, Option<Key>>, l: LUN, names: map<string, Key>) {
    l.index in live && live[l.index].Some? && l.backstore in names ==> live[l.index] == Some(names[l.backstore])
  }

  ghost predicate LunsClear(live: map<int, Option<Key>>, luns: seq<LUN>, names: map<string, Key>) {
    forall l | l in luns :: LunClear(live, l, names)
  }

  ghost predicate LunHeld(live: map<int, Option<Key>>, l: LUN, names: map<string, Key>) {
    l.index in live && l.backstore in names && live[l.index] == Some(names[l.backstore])
  }

  ghost predicate LunsHeld(live: map<int, Option<Key>>, luns: seq<LUN>, names: map<string, Key>) {
    forall l | l in luns :: LunHeld(live, l, names)
  }

  ghost predicate MappedHeld(live: map<int, Mapping>, ms: seq<MappedLUN>) {
    forall m | m in ms :: m.index in live && live[m.index] == Mapping(Some(m.tpgLun), m.writeProtect)
  }

  ghost predicate AclsHeld(live: map<string, map<int, Mapping>>, acls: seq<ACL>) {
    forall a | a in acls :: a.initiator in live && MappedHeld(live[a.initiator], a.mapped)
  }

  /** The node already has everything g asks for. */
  ghost predicate NodeHeld(n: Node, g: TPG, names: map<string, Key>) {
    && n.enable == g.enable && (forall q | q in g.portals :: q in n.portals)
    && LunsHeld(n.luns, g.luns, names) && AclsHeld(n.acls, g.acls)
  }

  ghost predicate NamesLive(names: map<string, Key>, objs: map<Key, Obj>) {
    forall n | n in names :: names[n] in objs && objs[names[n]].enabled
  }

  ghost predicate LunsAimed(luns: seq<LUN>, p: Path, names: map<string, Key>, goal: Config) {
    forall l | l in luns && l.backstore in names :: Goal(goal, p, l.index, names[l.backstore])
  }

  // ----- portals -----

  /** portalApplyOrder (lio/iscsi.go:541-560): wildcards first, otherwise as given. */
  function Wildcards(ps: seq<Portal>, wild: bool): seq<Portal> {
    if ps == [] then []
    else (if ps[0].ip.Unspecified() == wild then [ps[0]] else []) + Wildcards(ps[1..], wild)
  }

  function ApplyOrder(ps: seq<Portal>): seq<Portal> {
    Wildcards(ps, true) + Wildcards(ps, false)
  }

  lemma {:induction false} WildcardsSelect(ps: seq<Portal>, wild: bool, q: Portal)
    ensures q in Wildcards(ps, wild) <==> q in ps && q.ip.Unspecified() == wild
  {
    if ps != [] {
      WildcardsSelect(ps[1..], wild, q);
      assert ps == [ps[0]] + ps[1..];
    }
  }

  /** checkPortalOverlap (appliance/appliance.go:1628-1652). */
  ghost predicate NoOverlap(ps: seq<Portal>) {
    forall w, o | w in ps && o in ps :: w != o && w.port == o.port ==> !Covers(w.ip, o.ip)
  }

  /** The portals of one port, in order. */
  function OnPort(ps: seq<Portal>, port: nat): seq<Portal> {
    if ps == [] then []
    else OnPort(ps[..|ps| - 1], port) + (if ps[|ps| - 1].port == port then [ps[|ps| - 1]] else [])
  }

  lemma {:induction false} OnPortIs(ps: seq<Portal>, port: nat, q: Portal)
    ensures q in OnPort(ps, port) <==> q in ps && q.port == port
  {
    if ps != [] {
      assert ps == ps[..|ps| - 1] + [ps[|ps| - 1]];
      OnPortIs(ps[..|ps| - 1], port, q);
    }
  }

  /** The inner loops of checkPortalOverlap: no wildcard of the group covers another address. */
  method GroupFits(group: seq<Portal>, port: nat) returns (ok: bool)
    requires forall q | q in group :: q.port == port
    ensures ok <==> NoOverlap(group)
  {
    for i := 0 to |group|
      invariant forall w, o | w in group[..i] && o in group :: w != o ==> !Covers(w.ip, o.ip)
    {
      var w := group[i];
      TakeNext(group, i);
      for j := 0 to |group|
        invariant forall o | o in group[..j] :: w != o ==> !Covers(w.ip, o.ip)
      {
        var o := group[j];
        TakeNext(group, j);
        if o.ip != w.ip && Covers(w.ip, o.ip) {
          assert w in group && o in group;
          return false;
        }
      }
      assert group[..|group|] == group;
    }
    assert group[..|group|] == group;
    return true;
  }

  /** checkPortalOverlap (appliance/appliance.go:1628-1652): grouped by port, since two portals on
      different ports never contend. */
  method CheckPortalOverlap(ps: seq<Portal>) returns (ok: bool)
    ensures ok <==> NoOverlap(ps)
  {
    var groups: map<nat, seq<Portal>> := map[];
    for i := 0 to |ps|
      invariant forall p | p in groups :: groups[p] == OnPort(ps[..i], p)
      invariant forall q | q in ps[..i] :: q.port in groups
      invariant forall p | p !in groups :: OnPort(ps[..i], p) == []
    {
      assert ps[..i + 1][..i] == ps[..i];
      TakeNext(ps, i);
      var port := ps[i].port;
      groups := groups[port := (if port in groups then groups[port] else []) + [ps[i]]];
    }
    assert ps[..|ps|] == ps;
    forall p, q ensures q in OnPort(ps, p) <==> q in ps && q.port == p {
      OnPortIs(ps, p, q);
    }
    var rest := groups.Keys;
    while rest != {}
      invariant rest <= groups.Keys
      invariant forall p | p in groups && p !in rest :: NoOverlap(groups[p])
      decreases |rest|
    {
      var p: nat :| p in rest;
      ok := GroupFits(groups[p], p);
      if !ok {
        ghost var w, o :| w in groups[p] && o in groups[p] && w != o && w.port == o.port && Covers(w.ip, o.ip);
        assert w in ps && o in ps;
        return;
      }
      rest := rest - {p};
    }
    ok := true;
    forall w, o | w in ps && o in ps && w != o && w.port == o.port ensures !Covers(w.ip, o.ip) {
      assert w in groups[w.port] && o in groups[w.port];
    }
  }

  /** Nothing live stands in the way of a desired portal that is not yet bound. */
  ghost predicate Unobstructed(live: set<Portal>, want: seq<Portal>) {
    forall p | p in want && p !in live :: Binds(p, live)
  }

  ghost predicate Ready(live: set<Portal>, want: seq<Portal>) {
    NoOverlap(want) && Unobstructed(live, want)
  }

  /** In apply order, no bind is refused. */
  lemma NextBinds(live: set<Portal>, want: seq<Portal>, i: nat, now: set<Portal>)
    requires Ready(live, want) && i < |ApplyOrder(want)|
    requires forall q :: q in now <==> q in live || q in ApplyOrder(want)[..i]
    ensures ApplyOrder(want)[i] in now || Binds(ApplyOrder(want)[i], now)
  {
    var order := ApplyOrder(want);
    var p := order[i];
    assert p in order;
    WildcardsSelect(want, true, p);
    WildcardsSelect(want, false, p);
    forall q | q in order[..i] && q != p && q.port == p.port
      ensures !Clash(p.ip, q.ip)
    {
      WildcardsSelect(want, true, q);
      WildcardsSelect(want, false, q);
      assert q in want && p in want;
    }
  }

  /** ensurePortal (lio/iscsi.go:139-151). */
  method EnsurePortal(fs: Configfs, p: Path, q: Portal) returns (err: Err)
    requires fs.Inv() && p in fs.tree.nodes
    modifies fs`tree, fs`writes
    ensures fs.Inv() && OnlyNode(old(fs.tree), fs.tree, p) && err in {Ok, Io, Inval, Refused}
    ensures fs.faults || err !in {Io, Inval}
    ensures q in old(fs.tree).nodes[p].portals || Binds(q, old(fs.tree).nodes[p].portals) ==> err != Refused
    ensures err == Ok ==> fs.tree.nodes[p] == old(fs.tree).nodes[p].(portals := old(fs.tree).nodes[p].portals + {q})
    ensures err != Ok || q in old(fs.tree).nodes[p].portals ==> fs.tree == old(fs.tree) && fs.writes == old(fs.writes)
  {
    err := fs.Readable();
    if err != Ok { return; }
    if q in fs.tree.nodes[p].portals {
      assert fs.tree.nodes[p].portals + {q} == fs.tree.nodes[p].portals;
      return;
    }
    err := fs.OnNode(p, MkPortal(q));
  }

  /** The portal loop of ensureTPG (lio/iscsi.go:102-107). */
  method EnsurePortals(fs: Configfs, p: Path, want: seq<Portal>) returns (err: Err)
    requires fs.Inv() && p in fs.tree.nodes
    modifies fs`tree, fs`writes
    ensures fs.Inv() && OnlyNode(old(fs.tree), fs.tree, p) && err in {Ok, Io, Inval, Refused}
    ensures fs.faults || err !in {Io, Inval}
    ensures fs.tree.nodes[p] == old(fs.tree).nodes[p].(portals := fs.tree.nodes[p].portals)
    ensures Ready(old(fs.tree).nodes[p].portals, want) ==> err != Refused
    ensures err == Ok ==> fs.tree.nodes[p].portals == old(fs.tree).nodes[p].portals + (set q | q in want)
    ensures (forall q | q in want :: q in old(fs.tree).nodes[p].portals) ==>
              fs.tree == old(fs.tree) && fs.writes == old(fs.writes)
  {
    ghost var live, now := fs.tree.nodes[p].portals, fs.tree.nodes[p].portals;
    var order := ApplyOrder(want);
    OrderSelects(want);
    for i := 0 to |order|
      invariant fs.Inv() && OnlyNode(old(fs.tree), fs.tree, p)
      invariant fs.tree.nodes[p] == old(fs.tree).nodes[p].(portals := now)
      invariant forall q :: q in now <==> q in live || q in order[..i]
      invariant (forall q | q in order :: q in live) ==> fs.tree == old(fs.tree) && fs.writes == old(fs.writes)
    {
      if Ready(live, want) {
        NextBinds(live, want, i, now);
      }
      err := EnsurePortal(fs, p, order[i]);
      if err != Ok { return; }
      TakeNext(order, i);
      now := now + {order[i]};
    }
    assert order[..|order|] == order;
    err := Ok;
  }

  lemma TakeNext<T(!new)>(s: seq<T>, i: nat)
    requires i < |s|
    ensures forall x :: x in s[..i + 1] <==> x in s[..i] || x == s[i]
  {
    assert s[..i + 1] == s[..i] + [s[i]];
  }

  lemma OrderSelects(want: seq<Portal>)
    ensures forall q :: q in ApplyOrder(want) <==> q in want
    ensures (set q | q in ApplyOrder(want)) == set q | q in want
  {
    forall q ensures q in ApplyOrder(want) <==> q in want {
      WildcardsSelect(want, true, q);
      WildcardsSelect(want, false, q);
    }
  }

  // ----- LUNs -----

  function WantLink(l: LUN, names: map<string, Key>): Option<Key> {
    if l.backstore in names then Some(names[l.backstore]) else None
  }

  /** Whoever leaves the counter alone has left every link in place. */
  ghost predicate Counted(n0: map<Path, Node>, n1: map<Path, Node>, r0: nat, r1: nat) {
    r0 <= r1 && (r1 == r0 ==> LinksStay(n0, n1))
  }

  ghost predicate LinksStay(n0: map<Path, Node>, n1: map<Path, Node>) {
    forall p, i | LinkAt(n0, p, i).Some? :: LinkAt(n1, p, i) == LinkAt(n0, p, i)
  }

  /** Whoever leaves the counter alone has re-pointed no LUN: linked before and after, it is linked
      to the same backstore. */
  ghost predicate MovesCounted(n0: map<Path, Node>, n1: map<Path, Node>, r0: nat, r1: nat) {
    r0 <= r1 && (r1 == r0 ==> NothingMoved(n0, n1))
  }

  ghost predicate NothingMoved(n0: map<Path, Node>, n1: map<Path, Node>) {
    forall p, i | LinkAt(n0, p, i).Some? && LinkAt(n1, p, i).Some? :: LinkAt(n1, p, i) == LinkAt(n0, p, i)
  }

  lemma CountedSame(n0: map<Path, Node>, n1: map<Path, Node>, r: nat)
    requires n1 == n0
    ensures Counted(n0, n1, r, r)
  {
  }

  lemma CountedTrans(n0: map<Path, Node>, n1: map<Path, Node>, n2: map<Path, Node>, r0: nat, r1: nat, r2: nat)
    requires Counted(n0, n1, r0, r1) && Counted(n1, n2, r1, r2)
    ensures Counted(n0, n2, r0, r2)
  {
  }

  /** ensureLUN (lio/iscsi.go:154-211): a LUN wired elsewhere is re-pointed in place. */
  method EnsureLun(fs: Configfs, p: Path, l: LUN, names: map<string, Key>) returns (err: Err)
    requires fs.Inv() && p in fs.tree.nodes && NamesLive(names, fs.tree.objs)
    modifies fs`tree, fs`writes, fs`repoints
    ensures fs.Inv() && OnlyNode(old(fs.tree), fs.tree, p) && err in {Ok, Io, Inval, Dependency}
    ensures fs.faults || err !in {Io, Inval}
    ensures err == Dependency <==> l.backstore !in names
    ensures fs.tree.nodes[p] == old(fs.tree).nodes[p].(luns := fs.tree.nodes[p].luns)
    ensures || fs.tree.nodes[p].luns == old(fs.tree).nodes[p].luns
            || fs.tree.nodes[p].luns == old(fs.tree).nodes[p].luns[l.index := None]
            || (err == Ok && fs.tree.nodes[p].luns == old(fs.tree).nodes[p].luns[l.index := WantLink(l, names)])
    ensures err == Ok ==> fs.tree.nodes[p].luns == old(fs.tree).nodes[p].luns[l.index := WantLink(l, names)]
    ensures LunHeld(old(fs.tree).nodes[p].luns, l, names) ==> fs.tree == old(fs.tree) && fs.writes == old(fs.writes)
    ensures LunClear(old(fs.tree).nodes[p].luns, l, names) ==> fs.repoints == old(fs.repoints)
    ensures Counted(old(fs.tree).nodes, fs.tree.nodes, old(fs.repoints), fs.repoints)
  {
    if l.backstore !in names {
      return Dependency;
    }
    err := fs.Readable();
    if err != Ok { return; }
    var want := names[l.backstore];
    var held := l.index in fs.tree.nodes[p].luns && fs.tree.nodes[p].luns[l.index] == Some(want);
    if !held {
      err := WireLun(fs, p, l.index, want);
    }
  }

  /** Vacate the LUN and link it. */
  method WireLun(fs: Configfs, p: Path, i: int, k: Key) returns (err: Err)
    requires fs.Inv() && p in fs.tree.nodes && k in fs.tree.objs && fs.tree.objs[k].enabled
    modifies fs`tree, fs`writes, fs`repoints
    ensures fs.Inv() && OnlyNode(old(fs.tree), fs.tree, p) && err in {Ok, Io, Inval}
    ensures fs.faults || err !in {Io, Inval}
    ensures fs.tree.nodes[p] == old(fs.tree).nodes[p].(luns := fs.tree.nodes[p].luns)
    ensures || fs.tree.nodes[p].luns == old(fs.tree).nodes[p].luns
            || fs.tree.nodes[p].luns == old(fs.tree).nodes[p].luns[i := None]
            || (err == Ok && fs.tree.nodes[p].luns == old(fs.tree).nodes[p].luns[i := Some(k)])
    ensures err == Ok ==> fs.tree.nodes[p].luns == old(fs.tree).nodes[p].luns[i := Some(k)]
    ensures !(i in old(fs.tree).nodes[p].luns && old(fs.tree).nodes[p].luns[i].Some?) ==> fs.repoints == old(fs.repoints)
    ensures Counted(old(fs.tree).nodes, fs.tree.nodes, old(fs.repoints), fs.repoints)
  {
    err := VacateLun(fs, p, i);
    if err != Ok { return; }
    ghost var t1, r1 := fs.tree, fs.repoints;
    err := fs.OnNode(p, LinkLun(i, k));
    LinkingStays(t1, fs.tree, p, i);
    CountedTrans(old(fs.tree).nodes, t1.nodes, fs.tree.nodes, old(fs.repoints), r1, r1);
  }

  lemma LinkingStays(t0: Tree, t1: Tree, p: Path, i: int)
    requires OnlyNode(t0, t1, p) && p in t0.nodes && i in t0.nodes[p].luns && t0.nodes[p].luns[i] == None
    requires forall j | j in t0.nodes[p].luns && j != i :: j in t1.nodes[p].luns && t1.nodes[p].luns[j] == t0.nodes[p].luns[j]
    ensures LinksStay(t0.nodes, t1.nodes)
  {
  }

  /** Leave the LUN present and unlinked (lio/iscsi.go:173-203). */
  method VacateLun(fs: Configfs, p: Path, i: int) returns (err: Err)
    requires fs.Inv() && p in fs.tree.nodes
    modifies fs`tree, fs`writes, fs`repoints
    ensures fs.Inv() && OnlyNode(old(fs.tree), fs.tree, p) && err in {Ok, Io, Inval}
    ensures fs.faults || err !in {Io, Inval}
    ensures fs.tree == old(fs.tree) || fs.tree.nodes[p] == old(fs.tree).nodes[p].(luns := old(fs.tree).nodes[p].luns[i := None])
    ensures err == Ok ==> i in fs.tree.nodes[p].luns && fs.tree.nodes[p].luns[i] == None
    ensures !(i in old(fs.tree).nodes[p].luns && old(fs.tree).nodes[p].luns[i].Some?) ==> fs.repoints == old(fs.repoints)
    ensures Counted(old(fs.tree).nodes, fs.tree.nodes, old(fs.repoints), fs.repoints)
  {
    if i !in fs.tree.nodes[p].luns {
      err := fs.OnNode(p, MkLun(i));
    } else if fs.tree.nodes[p].luns[i].Some? {
      err := fs.OnNode(p, UnlinkLun(i));
      if err != Ok { return; }
      fs.repoints := fs.repoints + 1;
    } else {
      err := Ok;
    }
  }

  method EnsureLuns(fs: Configfs, p: Path, luns: seq<LUN>, names: map<string, Key>, ghost goal: Config) returns (err: Err)
    requires fs.Inv() && p in fs.tree.nodes && NamesLive(names, fs.tree.objs)
    requires forall i, j :: 0 <= i < j < |luns| ==> luns[i].index != luns[j].index
    requires LunsAimed(luns, p, names, goal)
    modifies fs`tree, fs`writes, fs`repoints
    ensures fs.Inv() && OnlyNode(old(fs.tree), fs.tree, p) && err in {Ok, Io, Inval, Dependency}
    ensures fs.faults || err !in {Io, Inval}
    ensures Resolved(luns, names) ==> err != Dependency
    ensures fs.tree.nodes[p] == old(fs.tree).nodes[p].(luns := fs.tree.nodes[p].luns)
    ensures LunsToward(old(fs.tree).nodes[p].luns, fs.tree.nodes[p].luns, p, goal)
    ensures err == Ok ==> Resolved(luns, names)
    ensures err == Ok ==> fs.tree.nodes[p].luns == ApplyLuns(old(fs.tree).nodes[p].luns, luns, names)
    ensures LunsHeld(old(fs.tree).nodes[p].luns, luns, names) ==> fs.tree == old(fs.tree) && fs.writes == old(fs.writes)
    ensures LunsClear(old(fs.tree).nodes[p].luns, luns, names) ==> fs.repoints == old(fs.repoints)
    ensures Counted(old(fs.tree).nodes, fs.tree.nodes, old(fs.repoints), fs.repoints)
  {
    ghost var was := fs.tree.nodes[p].luns;
    for i := 0 to |luns|
      invariant fs.Inv() && OnlyNode(old(fs.tree), fs.tree, p)
      invariant fs.tree.nodes[p] == old(fs.tree).nodes[p].(luns := fs.tree.nodes[p].luns)
      invariant Resolved(luns[..i], names)
      invariant fs.tree.nodes[p].luns == ApplyLuns(was, luns[..i], names)
      invariant LunsToward(was, fs.tree.nodes[p].luns, p, goal)
      invariant LunsHeld(was, luns, names) ==> fs.tree == old(fs.tree) && fs.writes == old(fs.writes)
      invariant LunsClear(was, luns, names) ==> fs.repoints == old(fs.repoints)
      invariant Counted(old(fs.tree).nodes, fs.tree.nodes, old(fs.repoints), fs.repoints)
    {
      assert luns[i] in luns;
      ghost var n1, r1 := fs.tree.nodes, fs.repoints;
      ghost var before := fs.tree.nodes[p].luns;
      ApplyLunsMisses(was, luns[..i], names, luns[i].index);
      err := EnsureLun(fs, p, luns[i], names);
      LunStepToward(was, before, fs.tree.nodes[p].luns, luns[i], names, p, goal);
      CountedTrans(old(fs.tree).nodes, n1, fs.tree.nodes, old(fs.repoints), r1, fs.repoints);
      if err != Ok { return; }
      ApplyLunsNext(was, luns, names, i);
    }
    assert luns[..|luns|] == luns;
    err := Ok;
  }

  lemma ApplyLunsNext(base: map<int, Option<Key>>, luns: seq<LUN>, names: map<string, Key>, i: nat)
    requires i < |luns| && Resolved(luns[..i], names) && luns[i].backstore in names
    ensures Resolved(luns[..i + 1], names)
    ensures ApplyLuns(base, luns[..i + 1], names) == ApplyLuns(base, luns[..i], names)[luns[i].index := WantLink(luns[i], names)]
  {
    assert luns[..i + 1] == luns[..i] + [luns[i]];
    assert luns[..i + 1][..i] == luns[..i];
  }

  lemma {:induction false} ApplyLunsMisses(base: map<int, Option<Key>>, luns: seq<LUN>, names: map<string, Key>, i: int)
    requires Resolved(luns, names) && forall l | l in luns :: l.index != i
    ensures i in ApplyLuns(base, luns, names) <==> i in base
    ensures i in base ==> ApplyLuns(base, luns, names)[i] == base[i]
  {
    if luns != [] {
      assert luns[|luns| - 1] in luns;
      ApplyLunsMisses(base, luns[..|luns| - 1], names, i);
    }
  }

  lemma LunStepToward(was: map<int, Option<Key>>, before: map<int, Option<Key>>, after: map<int, Option<Key>>,
                      l: LUN, names: map<string, Key>, p: Path, goal: Config)
    requires LunsToward(was, before, p, goal)
    requires l.backstore in names ==> Goal(goal, p, l.index, names[l.backstore])
    requires after == before || after == before[l.index := None] || after == before[l.index := WantLink(l, names)]
    ensures LunsToward(was, after, p, goal)
  {
  }

  // ----- ACLs and mapped LUNs -----

  function WantMapping(m: MappedLUN): Mapping { Mapping(Some(m.tpgLun), m.writeProtect) }

  ghost predicate OnlyAcl(n0: Node, n1: Node, a: string) {
    && n1 == n0.(acls := n1.acls) && n0.acls.Keys <= n1.acls.Keys <= n0.acls.Keys + {a}
    && forall b | b in n0.acls && b != a :: n1.acls[b] == n0.acls[b]
  }

  /** Two nodes that differ at most in one mapped LUN of one ACL. */
  ghost predicate OnlyMapping(n0: Node, n1: Node, a: string, j: int) {
    && OnlyAcl(n0, n1, a) && a in n0.acls
    && n0.acls[a].Keys <= n1.acls[a].Keys <= n0.acls[a].Keys + {j}
    && forall i | i in n0.acls[a] && i != j :: n1.acls[a][i] == n0.acls[a][i]
  }

  lemma MappingSet(n0: Node, n1: Node, a: string, j: int)
    requires OnlyMapping(n0, n1, a, j) && j in n1.acls[a]
    ensures n1.acls[a] == n0.acls[a][j := n1.acls[a][j]]
  {
    var x, y := n1.acls[a], n0.acls[a][j := n1.acls[a][j]];
    assert x.Keys == y.Keys;
    assert forall i | i in x :: x[i] == y[i];
  }

  /** Every mapped LUN leads to one of the TPG's LUNs. */
  ghost predicate MappedWired(ms: seq<MappedLUN>, luns: set<int>) {
    forall m | m in ms :: m.tpgLun in luns
  }

  ghost predicate AclsWired(acls: seq<ACL>, luns: set<int>) {
    forall a | a in acls :: MappedWired(a.mapped, luns)
  }

  ghost predicate Points(n: Node, a: string, m: MappedLUN) {
    HasMapped(n, a, m.index) && n.acls[a][m.index].link == Some(m.tpgLun)
  }

  /** The mapped LUN is there, and linked to nothing else. */
  ghost predicate Loose(n: Node, a: string, m: MappedLUN) {
    HasMapped(n, a, m.index) && n.acls[a][m.index].link in {None, Some(m.tpgLun)}
  }

  /** Leave the mapped LUN present, and linked only if to its TPG LUN (lio/iscsi.go:237-260). */
  method VacateMapped(fs: Configfs, p: Path, a: string, m: MappedLUN) returns (err: Err)
    requires fs.Inv() && p in fs.tree.nodes && a in fs.tree.nodes[p].acls
    modifies fs`tree, fs`writes
    ensures fs.Inv() && OnlyNode(old(fs.tree), fs.tree, p) && err in {Ok, Io, Inval}
    ensures fs.faults || err !in {Io, Inval}
    ensures OnlyMapping(old(fs.tree).nodes[p], fs.tree.nodes[p], a, m.index)
    ensures err == Ok ==> Loose(fs.tree.nodes[p], a, m)
    ensures Points(old(fs.tree).nodes[p], a, m) ==> fs.tree == old(fs.tree) && fs.writes == old(fs.writes)
  {
    err := fs.Readable();
    if err != Ok { return; }
    var n := fs.tree.nodes[p];
    if !HasMapped(n, a, m.index) {
      err := fs.OnNode(p, MkMapped(a, m.index));
    } else if n.acls[a][m.index].link.Some? && n.acls[a][m.index].link != Some(m.tpgLun) {
      err := fs.OnNode(p, UnlinkMapped(a, m.index));
    }
  }

  method LinkMappedLun(fs: Configfs, p: Path, a: string, m: MappedLUN) returns (err: Err)
    requires fs.Inv() && p in fs.tree.nodes && Loose(fs.tree.nodes[p], a, m)
    modifies fs`tree, fs`writes
    ensures fs.Inv() && OnlyNode(old(fs.tree), fs.tree, p) && err in {Ok, Io, Inval}
    ensures m.tpgLun in old(fs.tree).nodes[p].luns ==> fs.faults || err !in {Io, Inval}
    ensures OnlyMapping(old(fs.tree).nodes[p], fs.tree.nodes[p], a, m.index)
    ensures err == Ok ==> Points(fs.tree.nodes[p], a, m)
    ensures Points(old(fs.tree).nodes[p], a, m) ==> fs.tree == old(fs.tree) && fs.writes == old(fs.writes)
  {
    err := Ok;
    if fs.tree.nodes[p].acls[a][m.index].link != Some(m.tpgLun) {
      err := fs.OnNode(p, LinkMapped(a, m.index, m.tpgLun));
    }
  }

  /** ensureWriteProtect (lio/iscsi.go:270-287). */
  method EnsureWriteProtect(fs: Configfs, p: Path, a: string, m: MappedLUN) returns (err: Err)
    requires fs.Inv() && p in fs.tree.nodes && Points(fs.tree.nodes[p], a, m)
    modifies fs`tree, fs`writes
    ensures fs.Inv() && OnlyNode(old(fs.tree), fs.tree, p) && err in {Ok, Io, Inval}
    ensures fs.faults || err !in {Io, Inval}
    ensures OnlyMapping(old(fs.tree).nodes[p], fs.tree.nodes[p], a, m.index)
    ensures err == Ok ==> HasMapped(fs.tree.nodes[p], a, m.index)
    ensures err == Ok ==> fs.tree.nodes[p].acls[a][m.index] == WantMapping(m)
    ensures old(fs.tree).nodes[p].acls[a][m.index] == WantMapping(m) ==> fs.tree == old(fs.tree) && fs.writes == old(fs.writes)
  {
    err := fs.Readable();
    if err != Ok { return; }
    if fs.tree.nodes[p].acls[a][m.index].writeProtect != m.writeProtect {
      err := fs.OnNode(p, SetWriteProtect(a, m.index, m.writeProtect));
    }
  }

  /** ensureMappedLUN (lio/iscsi.go:233-268): a mapped LUN wired elsewhere is re-pointed in place. */
  method EnsureMapped(fs: Configfs, p: Path, a: string, m: MappedLUN) returns (err: Err)
    requires fs.Inv() && p in fs.tree.nodes && a in fs.tree.nodes[p].acls
    modifies fs`tree, fs`writes
    ensures fs.Inv() && OnlyNode(old(fs.tree), fs.tree, p) && err in {Ok, Io, Inval}
    ensures m.tpgLun in old(fs.tree).nodes[p].luns ==> fs.faults || err !in {Io, Inval}
    ensures OnlyMapping(old(fs.tree).nodes[p], fs.tree.nodes[p], a, m.index)
    ensures err == Ok ==> HasMapped(fs.tree.nodes[p], a, m.index)
    ensures err == Ok ==> fs.tree.nodes[p].acls[a][m.index] == WantMapping(m)
    ensures m.index in old(fs.tree).nodes[p].acls[a] && old(fs.tree).nodes[p].acls[a][m.index] == WantMapping(m) ==>
              fs.tree == old(fs.tree) && fs.writes == old(fs.writes)
  {
    err := VacateMapped(fs, p, a, m);
    if err != Ok { return; }
    err := LinkMappedLun(fs, p, a, m);
    if err != Ok { return; }
    err := EnsureWriteProtect(fs, p, a, m);
  }

  /** ensureACL (lio/iscsi.go:214-230). */
  method EnsureAcl(fs: Configfs, p: Path, acl: ACL) returns (err: Err)
    requires fs.Inv() && p in fs.tree.nodes
    modifies fs`tree, fs`writes
    ensures fs.Inv() && OnlyNode(old(fs.tree), fs.tree, p) && err in {Ok, Io, Inval}
    ensures MappedWired(acl.mapped, old(fs.tree).nodes[p].luns.Keys) ==> fs.faults || err !in {Io, Inval}
    ensures OnlyAcl(old(fs.tree).nodes[p], fs.tree.nodes[p], acl.initiator)
    ensures err == Ok ==> acl.initiator in fs.tree.nodes[p].acls
    ensures err == Ok ==> fs.tree.nodes[p].acls[acl.initiator] ==
                          ApplyMapped(AclAt(old(fs.tree).nodes[p].acls, acl.initiator), acl.mapped)
    ensures AclsHeld(old(fs.tree).nodes[p].acls, [acl]) ==> fs.tree == old(fs.tree) && fs.writes == old(fs.writes)
  {
    assert acl in [acl];
    var a := acl.initiator;
    err := fs.Readable();
    if err != Ok { return; }
    if a !in fs.tree.nodes[p].acls {
      err := fs.OnNode(p, MkAcl(a));
      if err != Ok { return; }
    }
    ghost var was := AclAt(old(fs.tree).nodes[p].acls, a);
    assert a in fs.tree.nodes[p].acls && fs.tree.nodes[p].acls[a] == was;
    err := EnsureMappedAll(fs, p, a, acl.mapped);
  }

  method EnsureMappedAll(fs: Configfs, p: Path, a: string, ms: seq<MappedLUN>) returns (err: Err)
    requires fs.Inv() && p in fs.tree.nodes && a in fs.tree.nodes[p].acls
    modifies fs`tree, fs`writes
    ensures fs.Inv() && OnlyNode(old(fs.tree), fs.tree, p) && err in {Ok, Io, Inval}
    ensures MappedWired(ms, old(fs.tree).nodes[p].luns.Keys) ==> fs.faults || err !in {Io, Inval}
    ensures OnlyAcl(old(fs.tree).nodes[p], fs.tree.nodes[p], a) && a in fs.tree.nodes[p].acls
    ensures err == Ok ==> fs.tree.nodes[p].acls[a] == ApplyMapped(old(fs.tree).nodes[p].acls[a], ms)
    ensures MappedHeld(old(fs.tree).nodes[p].acls[a], ms) ==> fs.tree == old(fs.tree) && fs.writes == old(fs.writes)
  {
    ghost var was := fs.tree.nodes[p].acls[a];
    for i := 0 to |ms|
      invariant fs.Inv() && OnlyNode(old(fs.tree), fs.tree, p)
      invariant OnlyAcl(old(fs.tree).nodes[p], fs.tree.nodes[p], a) && a in fs.tree.nodes[p].acls
      invariant fs.tree.nodes[p].acls[a] == ApplyMapped(was, ms[..i])
      invariant MappedHeld(was, ms) ==> fs.tree == old(fs.tree) && fs.writes == old(fs.writes)
    {
      assert ms[i] in ms;
      ghost var before := fs.tree.nodes[p];
      err := EnsureMapped(fs, p, a, ms[i]);
      if err != Ok { return; }
      MappingSet(before, fs.tree.nodes[p], a, ms[i].index);
      ApplyMappedNext(was, ms, i);
    }
    assert ms[..|ms|] == ms;
    err := Ok;
  }

  lemma ApplyMappedNext(base: map<int, Mapping>, ms: seq<MappedLUN>, i: nat)
    requires i < |ms|
    ensures ApplyMapped(base, ms[..i + 1]) == ApplyMapped(base, ms[..i])[ms[i].index := WantMapping(ms[i])]
  {
    assert ms[..i + 1][..i] == ms[..i];
  }

  method EnsureAcls(fs: Configfs, p: Path, acls: seq<ACL>) returns (err: Err)
    requires fs.Inv() && p in fs.tree.nodes
    modifies fs`tree, fs`writes
    ensures fs.Inv() && OnlyNode(old(fs.tree), fs.tree, p) && err in {Ok, Io, Inval}
    ensures AclsWired(acls, old(fs.tree).nodes[p].luns.Keys) ==> fs.faults || err !in {Io, Inval}
    ensures fs.tree.nodes[p] == old(fs.tree).nodes[p].(acls := fs.tree.nodes[p].acls)
    ensures err == Ok ==> fs.tree.nodes[p].acls == ApplyAcls(old(fs.tree).nodes[p].acls, acls)
    ensures AclsHeld(old(fs.tree).nodes[p].acls, acls) ==> fs.tree == old(fs.tree) && fs.writes == old(fs.writes)
  {
    ghost var was := fs.tree.nodes[p].acls;
    for i := 0 to |acls|
      invariant fs.Inv() && OnlyNode(old(fs.tree), fs.tree, p)
      invariant fs.tree.nodes[p] == old(fs.tree).nodes[p].(acls := fs.tree.nodes[p].acls)
      invariant fs.tree.nodes[p].acls == ApplyAcls(was, acls[..i])
      invariant AclsHeld(was, acls) ==> fs.tree == old(fs.tree) && fs.writes == old(fs.writes)
    {
      assert acls[i] in acls;
      ghost var before := fs.tree.nodes[p];
      err := EnsureAcl(fs, p, acls[i]);
      if err != Ok { return; }
      AclSet(before, fs.tree.nodes[p], acls[i].initiator);
      ApplyAclsNext(was, acls, i);
    }
    assert acls[..|acls|] == acls;
    err := Ok;
  }

  lemma AclSet(n0: Node, n1: Node, a: string)
    requires OnlyAcl(n0, n1, a) && a in n1.acls
    ensures n1.acls == n0.acls[a := n1.acls[a]]
  {
  }

  lemma ApplyAclsNext(base: map<string, map<int, Mapping>>, acls: seq<ACL>, i: nat)
    requires i < |acls|
    ensures ApplyAcls(base, acls[..i + 1]) == ApplyAcls(base, acls[..i])[acls[i].initiator :=
              ApplyMapped(AclAt(ApplyAcls(base, acls[..i]), acls[i].initiator), acls[i].mapped)]
  {
    assert acls[..i + 1][..i] == acls[..i];
  }
}
