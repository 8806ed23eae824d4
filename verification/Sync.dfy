/** Manager.Sync (lio/sync.go): drive the tree to exactly the desired config. */
module Sync {
  import opened LioConfig
  import opened Kernel
  import opened Topology
  import opened Backstores
  import opened Ensure
  import opened Apply
  import opened Remove

  // ----- pruning portals that would block a bind -----

  /** blockedWildcardOnPort (lio/sync.go:338-359). */
  predicate BlocksWildcard(live: Portal, desired: seq<Portal>, alive: set<Portal>) {
    && !live.ip.Unspecified()
    && exists d | d in desired :: d.port == live.port && d.ip.Unspecified() && d !in alive
  }

  /** portalConflictsWithAny with wildcardPrecludes (lio/sync.go:309-327, 437-442). */
  predicate Conflicts(live: Portal, desired: seq<Portal>, alive: set<Portal>) {
    if live in desired then BlocksWildcard(live, desired, alive)
    else exists d | d in desired :: d.port == live.port && (live.ip.Unspecified() || d.ip.Unspecified())
  }

  /** What the conflict prune takes away. */
  function InTheWay(desired: seq<Portal>, alive: set<Portal>): set<Portal> {
    set q | q in alive && Conflicts(q, desired, alive)
  }

  /** Once the conflicts are gone, every missing desired portal can bind, whatever the live set was. */
  lemma PruneUnobstructs(desired: seq<Portal>, alive: set<Portal>)
    requires NoOverlap(desired)
    ensures Ready(alive - InTheWay(desired, alive), desired)
  {
    var left := alive - InTheWay(desired, alive);
    forall p, q | p in desired && p !in left && q in left && q.port == p.port
      ensures !Clash(p.ip, q.ip)
    {
    }
  }

  /** A live set that already is the desired one loses nothing. */
  lemma SteadyPortalsStay(desired: seq<Portal>, alive: set<Portal>)
    requires alive == set q | q in desired
    ensures InTheWay(desired, alive) == {}
  {
  }

  /** Only portals may differ. */
  ghost predicate SamePortalsAside(t0: Tree, t1: Tree) {
    && t1.targets == t0.targets && t1.objs == t0.objs && t1.nodes.Keys == t0.nodes.Keys
    && forall p | p in t0.nodes :: t1.nodes[p] == t0.nodes[p].(portals := t1.nodes[p].portals)
  }

  ghost predicate Unblocked(n0: map<Path, Node>, n1: map<Path, Node>, p: Path, c: Config) {
    DesiredTpg(c.targets, p).Some? && p in n0 && p in n1 ==>
      n1[p].portals == n0[p].portals - InTheWay(DesiredTpg(c.targets, p).value.portals, n0[p].portals)
  }

  ghost predicate PortalsSteady(nodes: map<Path, Node>, c: Config) {
    forall p | p in nodes && DesiredTpg(c.targets, p).Some? ::
      nodes[p].portals == set q | q in DesiredTpg(c.targets, p).value.portals
  }

  /** One live TPG of the conflict prune; one that is not desired is left to the ordinary prune. */
  method ClearTheWay(fs: Configfs, p: Path, c: Config) returns (err: Err)
    requires fs.Inv() && p in fs.tree.nodes
    modifies fs`tree, fs`writes
    ensures fs.Inv() && OnlyNode(old(fs.tree), fs.tree, p) && err in {Ok, Io, Inval}
    ensures fs.faults || err !in {Io, Inval}
    ensures fs.tree.nodes[p] == old(fs.tree).nodes[p].(portals := fs.tree.nodes[p].portals)
    ensures err == Ok ==> Unblocked(old(fs.tree).nodes, fs.tree.nodes, p, c)
    ensures PortalsSteady(old(fs.tree).nodes, c) ==> fs.tree == old(fs.tree) && fs.writes == old(fs.writes)
  {
    var g := DesiredTpg(c.targets, p);
    if g.None? {
      return Ok;
    }
    var live := fs.tree.nodes[p].portals;
    if live == set q | q in g.value.portals {
      SteadyPortalsStay(g.value.portals, live);
    }
    err := RemovePortals(fs, p, InTheWay(g.value.portals, live));
  }

  /** pruneConflictingPortals (lio/sync.go:249-271). */
  method PruneConflicting(fs: Configfs, c: Config) returns (err: Err)
    requires fs.Inv()
    modifies fs`tree, fs`writes
    ensures fs.Inv() && err in {Ok, Io, Inval} && SamePortalsAside(old(fs.tree), fs.tree)
    ensures fs.faults || err !in {Io, Inval}
    ensures err == Ok ==> forall p | p in fs.tree.nodes :: Unblocked(old(fs.tree).nodes, fs.tree.nodes, p, c)
    ensures PortalsSteady(old(fs.tree).nodes, c) ==> fs.tree == old(fs.tree) && fs.writes == old(fs.writes)
  {
    ghost var t0 := fs.tree;
    err := fs.Readable();
    if err != Ok { return; }
    var rest := fs.tree.nodes.Keys;
    while rest != {}
      invariant fs.Inv() && SamePortalsAside(t0, fs.tree) && rest <= t0.nodes.Keys && err == Ok
      invariant forall p | p in rest :: fs.tree.nodes[p] == t0.nodes[p]
      invariant forall p | p in t0.nodes && p !in rest :: Unblocked(t0.nodes, fs.tree.nodes, p, c)
      invariant PortalsSteady(t0.nodes, c) ==> fs.tree == t0 && fs.writes == old(fs.writes)
      decreases rest
    {
      var p :| p in rest;
      err := ClearTheWay(fs, p, c);
      if err != Ok { return; }
      rest := rest - {p};
    }
  }

  lemma UnblockedAt(t0: Tree, t1: Tree, c: Config, t: Target, g: TPG)
    requires Valid(c) && t in c.targets && g in t.tpgs && NoOverlap(g.portals) && t1.nodes.Keys == t0.nodes.Keys
    requires Path(t.iqn, g.tag) in t1.nodes ==> Unblocked(t0.nodes, t1.nodes, Path(t.iqn, g.tag), c)
    ensures Ready(NodeAt(t1.nodes, Path(t.iqn, g.tag)).portals, g.portals)
  {
    var p := Path(t.iqn, g.tag);
    DesiredTpgOnce(c, t, g);
    if p in t1.nodes {
      PruneUnobstructs(g.portals, t0.nodes[p].portals);
    }
  }

  /** The conflict prune leaves every desired TPG ready for its portals. */
  lemma UnblockedReady(t0: Tree, t1: Tree, c: Config)
    requires Valid(c) && SamePortalsAside(t0, t1)
    requires forall p | p in t1.nodes :: Unblocked(t0.nodes, t1.nodes, p, c)
    requires forall t, g | t in c.targets && g in t.tpgs :: NoOverlap(g.portals)
    ensures TargetsReady(t1.nodes, c.targets)
  {
    forall t, g | t in c.targets && g in t.tpgs
      ensures Ready(NodeAt(t1.nodes, Path(t.iqn, g.tag)).portals, g.portals)
    {
      UnblockedAt(t0, t1, c, t, g);
    }
  }

  // ----- pruning inside a TPG that stays -----

  function FindAcl(acls: seq<ACL>, a: string): Option<ACL> {
    if acls == [] then None else if acls[0].initiator == a then Some(acls[0]) else FindAcl(acls[1..], a)
  }

  lemma {:induction false} FindAclIs(acls: seq<ACL>, a: string)
    ensures FindAcl(acls, a).Some? ==> FindAcl(acls, a).value in acls && FindAcl(acls, a).value.initiator == a
    ensures FindAcl(acls, a).None? ==> forall x | x in acls :: x.initiator != a
  {
    if acls != [] {
      FindAclIs(acls[1..], a);
    }
  }

  lemma SameAcl(acls: seq<ACL>, x: ACL, y: ACL)
    requires forall i, j :: 0 <= i < j < |acls| ==> acls[i].initiator != acls[j].initiator
    requires x in acls && y in acls && x.initiator == y.initiator
    ensures x == y
  {
    var i :| 0 <= i < |acls| && acls[i] == x;
    var j :| 0 <= j < |acls| && acls[j] == y;
  }

  /** The mapped-LUN half of pruneACLs (lio/sync.go:227-238). */
  method PruneMapped(fs: Configfs, p: Path, a: string, ms: seq<MappedLUN>) returns (err: Err)
    requires fs.Inv() && p in fs.tree.nodes && a in fs.tree.nodes[p].acls && MappedHeld(fs.tree.nodes[p].acls[a], ms)
    modifies fs`tree, fs`writes
    ensures fs.Inv() && OnlyNode(old(fs.tree), fs.tree, p) && err in {Ok, Io, Inval}
    ensures fs.faults || err !in {Io, Inval}
    ensures DropsAcls(old(fs.tree).nodes[p], fs.tree.nodes[p]) && OthersKept(old(fs.tree).nodes[p], fs.tree.nodes[p], a)
    ensures a in fs.tree.nodes[p].acls && MappedHeld(fs.tree.nodes[p].acls[a], ms)
    ensures err == Ok ==> MappedRealised(fs.tree.nodes[p].acls[a], ms)
    ensures MappedRealised(old(fs.tree).nodes[p].acls[a], ms) ==> fs.tree == old(fs.tree) && fs.writes == old(fs.writes)
  {
    err := RemoveMappedSet(fs, p, a, fs.tree.nodes[p].acls[a].Keys - (set m | m in ms :: m.index));
  }

  /** Every ACL left is one of acls, with exactly its mapped LUNs. */
  ghost predicate AclExact(m: map<string, map<int, Mapping>>, acls: seq<ACL>, a: string) {
    a in m ==> FindAcl(acls, a).Some? && MappedRealised(m[a], FindAcl(acls, a).value.mapped)
  }

  lemma AclsExact(m: map<string, map<int, Mapping>>, acls: seq<ACL>)
    requires forall i, j :: 0 <= i < j < |acls| ==> acls[i].initiator != acls[j].initiator
    requires AclsHeld(m, acls)
    ensures (forall a | a in m :: AclExact(m, acls, a)) <==> AclsRealised(m, acls)
  {
    forall a ensures FindAcl(acls, a).Some? ==> FindAcl(acls, a).value in acls && FindAcl(acls, a).value.initiator == a {
      FindAclIs(acls, a);
    }
    forall x | x in acls ensures FindAcl(acls, x.initiator) == Some(x) {
      FindAclIs(acls, x.initiator);
      SameAcl(acls, x, FindAcl(acls, x.initiator).value);
    }
  }

  /** One ACL of pruneACLs (lio/sync.go:218-239). */
  method PruneAcl(fs: Configfs, p: Path, a: string, acls: seq<ACL>) returns (err: Err)
    requires fs.Inv() && p in fs.tree.nodes && a in fs.tree.nodes[p].acls && AclsHeld(fs.tree.nodes[p].acls, acls)
    requires forall i, j :: 0 <= i < j < |acls| ==> acls[i].initiator != acls[j].initiator
    modifies fs`tree, fs`writes
    ensures fs.Inv() && OnlyNode(old(fs.tree), fs.tree, p) && err in {Ok, Io, Inval}
    ensures fs.faults || err !in {Io, Inval}
    ensures DropsAcls(old(fs.tree).nodes[p], fs.tree.nodes[p]) && OthersKept(old(fs.tree).nodes[p], fs.tree.nodes[p], a)
    ensures AclsHeld(fs.tree.nodes[p].acls, acls)
    ensures err == Ok ==> AclExact(fs.tree.nodes[p].acls, acls, a)
    ensures AclExact(old(fs.tree).nodes[p].acls, acls, a) ==> fs.tree == old(fs.tree) && fs.writes == old(fs.writes)
  {
    FindAclIs(acls, a);
    var want := FindAcl(acls, a);
    if want.None? {
      err := RemoveAcl(fs, p, a);
    } else {
      err := PruneMapped(fs, p, a, want.value.mapped);
      forall x | x in acls && x.initiator == a ensures x == want.value {
        SameAcl(acls, x, want.value);
      }
    }
  }

  /** pruneACLs (lio/sync.go:213-241). */
  method PruneAcls(fs: Configfs, p: Path, acls: seq<ACL>) returns (err: Err)
    requires fs.Inv() && p in fs.tree.nodes && AclsHeld(fs.tree.nodes[p].acls, acls)
    requires forall i, j :: 0 <= i < j < |acls| ==> acls[i].initiator != acls[j].initiator
    modifies fs`tree, fs`writes
    ensures fs.Inv() && OnlyNode(old(fs.tree), fs.tree, p) && err in {Ok, Io, Inval}
    ensures fs.faults || err !in {Io, Inval}
    ensures DropsAcls(old(fs.tree).nodes[p], fs.tree.nodes[p]) && AclsHeld(fs.tree.nodes[p].acls, acls)
    ensures err == Ok ==> AclsRealised(fs.tree.nodes[p].acls, acls)
    ensures AclsRealised(old(fs.tree).nodes[p].acls, acls) ==> fs.tree == old(fs.tree) && fs.writes == old(fs.writes)
  {
    ghost var m0 := fs.tree.nodes[p].acls;
    AclsExact(m0, acls);
    var rest := fs.tree.nodes[p].acls.Keys;
    err := Ok;
    while rest != {}
      invariant fs.Inv() && OnlyNode(old(fs.tree), fs.tree, p) && err == Ok
      invariant DropsAcls(old(fs.tree).nodes[p], fs.tree.nodes[p]) && AclsHeld(fs.tree.nodes[p].acls, acls)
      invariant rest <= fs.tree.nodes[p].acls.Keys
      invariant forall b | b in fs.tree.nodes[p].acls && b !in rest :: AclExact(fs.tree.nodes[p].acls, acls, b)
      invariant AclsRealised(m0, acls) ==> fs.tree == old(fs.tree) && fs.writes == old(fs.writes)
      decreases rest
    {
      var a :| a in rest;
      err := PruneAcl(fs, p, a, acls);
      if err != Ok { return; }
      rest := rest - {a};
    }
    AclsExact(fs.tree.nodes[p].acls, acls);
  }

  /** pruneLUNs (lio/sync.go:197-211); the ACLs have gone first, so nothing is refused. */
  method PruneLuns(fs: Configfs, p: Path, luns: seq<LUN>, names: map<string, Key>) returns (err: Err)
    requires fs.Inv() && p in fs.tree.nodes && LunsHeld(fs.tree.nodes[p].luns, luns, names)
    requires forall i | i in fs.tree.nodes[p].luns && i !in LunIndices(luns) :: !Mapped(fs.tree.nodes[p].acls, i)
    modifies fs`tree, fs`writes
    ensures fs.Inv() && OnlyNode(old(fs.tree), fs.tree, p) && err in {Ok, Io, Inval}
    ensures fs.faults || err !in {Io, Inval}
    ensures fs.tree.nodes[p] == old(fs.tree).nodes[p].(luns := fs.tree.nodes[p].luns)
    ensures LunsShrink(old(fs.tree).nodes[p].luns, fs.tree.nodes[p].luns) && LunsHeld(fs.tree.nodes[p].luns, luns, names)
    ensures err == Ok ==> LunsRealised(fs.tree.nodes[p].luns, luns, names)
    ensures LunsRealised(old(fs.tree).nodes[p].luns, luns, names) ==> fs.tree == old(fs.tree) && fs.writes == old(fs.writes)
  {
    err := RemoveLunSet(fs, p, fs.tree.nodes[p].luns.Keys - (set l | l in luns :: l.index));
  }

  // ----- pruning the whole tree -----

  lemma MappedWanted(n: Node, g: TPG, names: set<string>, i: int)
    requires ValidTpg(g, names) && AclsRealised(n.acls, g.acls) && i !in LunIndices(g.luns)
    ensures !Mapped(n.acls, i)
  {
    forall a, j | a in n.acls && j in n.acls[a]
      ensures n.acls[a][j].link != Some(i)
    {
      var acl :| acl in g.acls && acl.initiator == a;
      var m :| m in acl.mapped && m.index == j;
    }
  }

  /** prune, inside a TPG that is desired: portals, ACLs, then LUNs (lio/sync.go:145-158). */
  method PruneTpg(fs: Configfs, p: Path, g: TPG, names: map<string, Key>) returns (err: Err)
    requires fs.Inv() && p in fs.tree.nodes && ValidTpg(g, names.Keys) && NodeHeld(fs.tree.nodes[p], g, names)
    modifies fs`tree, fs`writes
    ensures fs.Inv() && OnlyNode(old(fs.tree), fs.tree, p) && err in {Ok, Io, Inval}
    ensures fs.faults || err !in {Io, Inval}
    ensures LunsShrink(old(fs.tree).nodes[p].luns, fs.tree.nodes[p].luns)
    ensures err == Ok ==> NodeRealised(fs.tree.nodes[p], g, names)
    ensures NodeRealised(old(fs.tree).nodes[p], g, names) ==> fs.tree == old(fs.tree) && fs.writes == old(fs.writes)
  {
    err := RemovePortals(fs, p, fs.tree.nodes[p].portals - (set q | q in g.portals));
    if err != Ok { return; }
    err := PruneAcls(fs, p, g.acls);
    if err != Ok { return; }
    forall i | i !in LunIndices(g.luns) ensures !Mapped(fs.tree.nodes[p].acls, i) {
      MappedWanted(fs.tree.nodes[p], g, names.Keys, i);
    }
    err := PruneLuns(fs, p, g.luns, names);
  }

  /** A node that, if it is in the tree, is exactly the TPG desired there. */
  ghost predicate Exact(nodes: map<Path, Node>, c: Config, p: Path) {
    p in nodes ==> DesiredTpg(c.targets, p).Some? &&
                   NodeRealised(nodes[p], DesiredTpg(c.targets, p).value, KeyMap(c.backstores))
  }

  ghost predicate Holds(nodes: map<Path, Node>, c: Config, p: Path) {
    DesiredTpg(c.targets, p).Some? ==> p in nodes && NodeHeld(nodes[p], DesiredTpg(c.targets, p).value, KeyMap(c.backstores))
  }

  lemma RealisedHeld(n: Node, g: TPG, names: map<string, Key>)
    requires NodeRealised(n, g, names)
    ensures NodeHeld(n, g, names)
  {
  }

  /** One live TPG of prune (lio/sync.go:137-159). */
  method PrunePath(fs: Configfs, p: Path, c: Config) returns (err: Err)
    requires fs.Inv() && p in fs.tree.nodes && Valid(c) && Holds(fs.tree.nodes, c, p)
    modifies fs`tree, fs`writes, fs`owed
    ensures fs.Inv() && fs.owed == old(fs.owed) && err in {Ok, Io, Inval}
    ensures fs.faults || err !in {Io, Inval}
    ensures Without(old(fs.tree), fs.tree, p) && Shrinks(old(fs.tree).nodes, fs.tree.nodes)
    ensures err == Ok ==> Exact(fs.tree.nodes, c, p) && Holds(fs.tree.nodes, c, p)
    ensures Exact(old(fs.tree).nodes, c, p) ==> fs.tree == old(fs.tree) && fs.writes == old(fs.writes)
  {
    var g := DesiredTpg(c.targets, p);
    if g.None? {
      err := RemoveTpg(fs, p);
      return;
    }
    WantedValid(c, p);
    err := PruneTpg(fs, p, g.value, KeyMap(c.backstores));
    NodeShrinks(old(fs.tree), fs.tree, p);
    if err == Ok {
      RealisedHeld(fs.tree.nodes[p], g.value, KeyMap(c.backstores));
    }
  }

  lemma WantedValid(c: Config, p: Path)
    requires Valid(c) && DesiredTpg(c.targets, p).Some?
    ensures ValidTpg(DesiredTpg(c.targets, p).value, KeyMap(c.backstores).Keys) && p.iqn in Iqns(c.targets)
  {
    KeyMapAt(c.backstores);
    DesiredTpgIs(c.targets, p);
  }

  ghost predicate AllHold(nodes: map<Path, Node>, c: Config) {
    forall p :: Holds(nodes, c, p)
  }

  ghost predicate AllExact(nodes: map<Path, Node>, c: Config) {
    forall p | p in nodes :: Exact(nodes, c, p)
  }

  /** Prune the TPGs of a desired target. */
  method PruneTpgs(fs: Configfs, iqn: string, c: Config) returns (err: Err)
    requires fs.Inv() && Valid(c) && AllHold(fs.tree.nodes, c)
    modifies fs`tree, fs`writes, fs`owed
    ensures fs.Inv() && fs.owed == old(fs.owed) && err in {Ok, Io, Inval}
    ensures fs.faults || err !in {Io, Inval}
    ensures WithoutIqn(old(fs.tree), fs.tree, iqn) && fs.tree.targets == old(fs.tree).targets
    ensures Shrinks(old(fs.tree).nodes, fs.tree.nodes)
    ensures err == Ok ==> AllHold(fs.tree.nodes, c) && forall p | p in fs.tree.nodes && p.iqn == iqn :: Exact(fs.tree.nodes, c, p)
    ensures AllExact(old(fs.tree).nodes, c) ==> fs.tree == old(fs.tree) && fs.writes == old(fs.writes)
  {
    ghost var t0 := fs.tree;
    var rest := set p | p in fs.tree.nodes && p.iqn == iqn;
    err := Ok;
    while rest != {}
      invariant fs.Inv() && fs.owed == old(fs.owed) && WithoutIqn(t0, fs.tree, iqn) && fs.tree.targets == t0.targets
      invariant Shrinks(t0.nodes, fs.tree.nodes) && err == Ok && AllHold(fs.tree.nodes, c)
      invariant rest <= fs.tree.nodes.Keys && forall p | p in rest :: p.iqn == iqn
      invariant forall p | p in fs.tree.nodes && p.iqn == iqn && p !in rest :: Exact(fs.tree.nodes, c, p)
      invariant AllExact(t0.nodes, c) ==> fs.tree == t0 && fs.writes == old(fs.writes)
      decreases rest
    {
      var p :| p in rest;
      ghost var t1 := fs.tree;
      assert Holds(t1.nodes, c, p);
      err := PrunePath(fs, p, c);
      ShrinksTrans(t0.nodes, t1.nodes, fs.tree.nodes);
      if err != Ok { return; }
      PathKept(t1, fs.tree, c, p);
      rest := rest - {p};
    }
  }

  lemma PathKept(t0: Tree, t1: Tree, c: Config, p: Path)
    requires Without(t0, t1, p) && AllHold(t0.nodes, c) && Holds(t1.nodes, c, p)
    ensures AllHold(t1.nodes, c)
    ensures forall q | q != p && q in t1.nodes :: q in t0.nodes && t1.nodes[q] == t0.nodes[q]
    ensures forall q | q != p && q in t1.nodes && Exact(t0.nodes, c, q) :: Exact(t1.nodes, c, q)
  {
    forall q ensures Holds(t1.nodes, c, q) {
      assert Holds(t0.nodes, c, q);
    }
  }

  /** The target half of prune (lio/sync.go:125-160). */
  method PruneTargets(fs: Configfs, c: Config) returns (err: Err)
    requires fs.Inv() && Valid(c) && AllHold(fs.tree.nodes, c) && Iqns(c.targets) <= fs.tree.targets
    modifies fs`tree, fs`writes, fs`owed
    ensures fs.Inv() && fs.owed == old(fs.owed) && err in {Ok, Io, Inval} && fs.tree.objs == old(fs.tree).objs
    ensures fs.faults || err !in {Io, Inval}
    ensures Shrinks(old(fs.tree).nodes, fs.tree.nodes)
    ensures err == Ok ==> fs.tree.targets == Iqns(c.targets) && AllHold(fs.tree.nodes, c) && AllExact(fs.tree.nodes, c)
    ensures old(fs.tree).targets == Iqns(c.targets) && AllExact(old(fs.tree).nodes, c) ==>
              fs.tree == old(fs.tree) && fs.writes == old(fs.writes)
  {
    ghost var t0 := fs.tree;
    var wanted := set t | t in c.targets :: t.iqn;
    var rest := fs.tree.targets;
    err := Ok;
    while rest != {}
      invariant fs.Inv() && fs.owed == old(fs.owed) && fs.tree.objs == t0.objs && err == Ok
      invariant Shrinks(t0.nodes, fs.tree.nodes) && AllHold(fs.tree.nodes, c)
      invariant rest <= fs.tree.targets && fs.tree.targets - rest <= wanted <= fs.tree.targets
      invariant forall p | p in fs.tree.nodes && p.iqn !in rest :: Exact(fs.tree.nodes, c, p)
      invariant t0.targets == wanted && AllExact(t0.nodes, c) ==> fs.tree == t0 && fs.writes == old(fs.writes)
      decreases rest
    {
      var iqn :| iqn in rest;
      err := PruneIqn(fs, iqn, c, wanted, t0, rest);
      if err != Ok { return; }
      rest := rest - {iqn};
    }
  }

  /** One live target of prune: removed whole, or pruned inside (lio/sync.go:126-160). */
  method PruneIqn(fs: Configfs, iqn: string, c: Config, wanted: set<string>, ghost t0: Tree, ghost rest: set<string>) returns (err: Err)
    requires fs.Inv() && Valid(c) && AllHold(fs.tree.nodes, c) && wanted == Iqns(c.targets)
    requires Shrinks(t0.nodes, fs.tree.nodes)
    requires forall p | p in fs.tree.nodes && p.iqn !in rest :: Exact(fs.tree.nodes, c, p)
    modifies fs`tree, fs`writes, fs`owed
    ensures fs.Inv() && fs.owed == old(fs.owed) && err in {Ok, Io, Inval} && fs.tree.objs == old(fs.tree).objs
    ensures fs.faults || err !in {Io, Inval}
    ensures Shrinks(t0.nodes, fs.tree.nodes)
    ensures old(fs.tree).targets - {iqn} <= fs.tree.targets <= old(fs.tree).targets
    ensures iqn in wanted ==> fs.tree.targets == old(fs.tree).targets
    ensures err == Ok ==> AllHold(fs.tree.nodes, c) && (iqn !in wanted ==> iqn !in fs.tree.targets)
    ensures err == Ok ==> forall p | p in fs.tree.nodes && p.iqn !in rest - {iqn} :: Exact(fs.tree.nodes, c, p)
    ensures iqn in wanted && AllExact(old(fs.tree).nodes, c) ==> fs.tree == old(fs.tree) && fs.writes == old(fs.writes)
  {
    ghost var t1 := fs.tree;
    if iqn in wanted {
      err := PruneTpgs(fs, iqn, c);
    } else {
      err := RemoveTarget(fs, iqn);
      forall p ensures DesiredTpg(c.targets, p).Some? ==> p.iqn != iqn {
        if DesiredTpg(c.targets, p).Some? {
          WantedValid(c, p);
        }
      }
    }
    ShrinksTrans(t0.nodes, t1.nodes, fs.tree.nodes);
    if err == Ok {
      IqnKept(t1, fs.tree, c, iqn);
    }
  }

  lemma IqnKept(t0: Tree, t1: Tree, c: Config, iqn: string)
    requires WithoutIqn(t0, t1, iqn) && AllHold(t0.nodes, c)
    requires forall p: Path | DesiredTpg(c.targets, p).Some? && p.iqn == iqn :: Holds(t1.nodes, c, p)
    ensures AllHold(t1.nodes, c)
    ensures forall q: Path | q.iqn != iqn && q in t1.nodes && Exact(t0.nodes, c, q) :: Exact(t1.nodes, c, q)
  {
    forall q ensures Holds(t1.nodes, c, q) {
      assert Holds(t0.nodes, c, q);
    }
  }

  lemma RealisedAt(nodes: map<Path, Node>, c: Config, p: Path)
    requires Valid(c) && NodesRealised(nodes, c)
    ensures Holds(nodes, c, p) && Exact(nodes, c, p)
  {
    DesiredTpgIs(c.targets, p);
    if DesiredTpg(c.targets, p).Some? {
      var g := DesiredTpg(c.targets, p).value;
      assert p in nodes && NodeRealised(nodes[p], g, KeyMap(c.backstores));
      RealisedHeld(nodes[p], g, KeyMap(c.backstores));
    }
  }

  lemma RealisedExact(nodes: map<Path, Node>, c: Config)
    requires Valid(c) && NodesRealised(nodes, c)
    ensures AllHold(nodes, c) && AllExact(nodes, c)
  {
    forall p ensures Holds(nodes, c, p) && Exact(nodes, c, p) {
      RealisedAt(nodes, c, p);
    }
  }

  lemma ExactRealised(nodes: map<Path, Node>, c: Config)
    requires Valid(c) && AllHold(nodes, c) && AllExact(nodes, c)
    ensures NodesRealised(nodes, c)
  {
    forall p ensures p in nodes <==> p in PathsOf(c.targets) {
      DesiredTpgIs(c.targets, p);
      assert Holds(nodes, c, p);
    }
    forall t, g | t in c.targets && g in t.tpgs
      ensures Path(t.iqn, g.tag) in nodes && NodeRealised(nodes[Path(t.iqn, g.tag)], g, KeyMap(c.backstores))
    {
      DesiredTpgOnce(c, t, g);
      assert Holds(nodes, c, Path(t.iqn, g.tag));
    }
  }

  /** The backstore half of prune: every LUN left links to a desired one (lio/sync.go:162-168). */
  method PruneBackstores(fs: Configfs, c: Config) returns (err: Err)
    requires fs.Inv() && Valid(c) && NodesRealised(fs.tree.nodes, c)
    modifies fs`tree, fs`writes, fs`owed
    ensures fs.Inv() && err in {Ok, Io, Inval}
    ensures fs.faults || err !in {Io, Inval}
    ensures fs.tree.nodes == old(fs.tree).nodes && fs.tree.targets == old(fs.tree).targets
    ensures ObjsShrink(old(fs.tree).objs, fs.tree.objs)
    ensures forall k | k in old(fs.tree).objs && k in Keys(c.backstores) ::
              k in fs.tree.objs && fs.tree.objs[k] == old(fs.tree).objs[k]
    ensures err == Ok ==> fs.tree.objs.Keys <= Keys(c.backstores)
    ensures old(fs.tree).objs.Keys <= Keys(c.backstores) ==> fs.tree == old(fs.tree) && fs.writes == old(fs.writes)
  {
    var wanted := set b | b in c.backstores :: b.key;
    var rest := fs.tree.objs.Keys - wanted;
    err := Ok;
    while rest != {}
      invariant fs.Inv() && err == Ok && rest !! wanted
      invariant fs.tree.nodes == old(fs.tree).nodes && fs.tree.targets == old(fs.tree).targets
      invariant ObjsShrink(old(fs.tree).objs, fs.tree.objs) && fs.tree.objs.Keys <= wanted + rest
      invariant forall k | k in old(fs.tree).objs && k in wanted :: k in fs.tree.objs && fs.tree.objs[k] == old(fs.tree).objs[k]
      invariant old(fs.tree).objs.Keys <= wanted ==> rest == {} && fs.tree == old(fs.tree) && fs.writes == old(fs.writes)
      decreases rest
    {
      var k :| k in rest;
      LinksWanted(fs.tree, c, k);
      err := RemoveBackstore(fs, k);
      if err != Ok { return; }
      rest := rest - {k};
    }
  }

  /** In an exact tree no LUN reaches an undesired backstore. */
  lemma LinksWanted(t: Tree, c: Config, k: Key)
    requires Valid(c) && NodesRealised(t.nodes, c) && k !in Keys(c.backstores)
    ensures !Exported(t, k)
  {
    KeyMapAt(c.backstores);
    forall p, i | p in t.nodes && i in t.nodes[p].luns
      ensures t.nodes[p].luns[i] != Some(k)
    {
      var tg, g :| tg in c.targets && g in tg.tpgs && p == Path(tg.iqn, g.tag);
      var l :| l in g.luns && l.index == i;
      var b := KeyMapNames(c.backstores, l.backstore);
    }
  }

  // ----- Sync -----

  /** Every desired TPG's portals pass checkPortalOverlap. */
  ghost predicate PortalsFit(c: Config) {
    forall t, g | t in c.targets && g in t.tpgs :: NoOverlap(g.portals)
  }

  lemma AppliedHold(t0: Tree, t1: Tree, c: Config)
    requires Valid(c) && Added(t0, t1, c)
    ensures AllHold(t1.nodes, c) && Iqns(c.targets) <= t1.targets
  {
    var names := KeyMap(c.backstores);
    KeyMapAt(c.backstores);
    forall p ensures Holds(t1.nodes, c, p) {
      DesiredTpgIs(c.targets, p);
      if DesiredTpg(c.targets, p).Some? {
        var g := DesiredTpg(c.targets, p).value;
        assert t1.nodes[p] == EnsureNode(NodeAt(t0.nodes, p), g, names);
        WantedValid(c, p);
        EnsuredHeld(NodeAt(t0.nodes, p), g, names);
      }
    }
  }

  lemma EnsuredHeld(n: Node, g: TPG, names: map<string, Key>)
    requires ValidTpg(g, names.Keys) && Resolved(g.luns, names)
    ensures NodeHeld(EnsureNode(n, g, names), g, names)
  {
    ApplyLunsAt(n.luns, g.luns, names);
    ApplyAclsAt(n.acls, g.acls);
    forall a | a in g.acls
      ensures MappedHeld(ApplyMapped(AclAt(n.acls, a.initiator), a.mapped), a.mapped)
    {
      ApplyMappedAt(AclAt(n.acls, a.initiator), a.mapped);
    }
  }

  lemma RealisedSteady(t: Tree, c: Config)
    requires Valid(c) && Realised(t, c)
    ensures TargetsHeld(t, c.targets, KeyMap(c.backstores)) && PortalsSteady(t.nodes, c)
  {
    RealisedExact(t.nodes, c);
    forall tg, g | tg in c.targets && g in tg.tpgs
      ensures Path(tg.iqn, g.tag) in t.nodes && NodeHeld(t.nodes[Path(tg.iqn, g.tag)], g, KeyMap(c.backstores))
    {
      RealisedHeld(t.nodes[Path(tg.iqn, g.tag)], g, KeyMap(c.backstores));
    }
    forall p | p in t.nodes && DesiredTpg(c.targets, p).Some?
      ensures t.nodes[p].portals == set q | q in DesiredTpg(c.targets, p).value.portals
    {
      assert Exact(t.nodes, c, p);
    }
  }

  lemma TowardThenShrinks(n0: map<Path, Node>, n1: map<Path, Node>, n2: map<Path, Node>, c: Config)
    requires Toward(n0, n1, c) && Shrinks(n1, n2)
    ensures Toward(n0, n2, c)
  {
    forall p, i | LinkAt(n2, p, i).Some? && LinkAt(n2, p, i) != LinkAt(n0, p, i)
      ensures Goal(c, p, i, LinkAt(n2, p, i).value)
    {
      assert LinkAt(n2, p, i) == LinkAt(n1, p, i);
    }
  }

  /** prune (lio/sync.go:115-170). */
  method Prune(fs: Configfs, c: Config) returns (err: Err)
    requires fs.Inv() && Valid(c) && AllHold(fs.tree.nodes, c) && Iqns(c.targets) <= fs.tree.targets
    modifies fs`tree, fs`writes, fs`owed
    ensures fs.Inv() && err in {Ok, Io, Inval} && Shrinks(old(fs.tree).nodes, fs.tree.nodes)
    ensures fs.faults || err !in {Io, Inval}
    ensures forall k | k in old(fs.tree).objs && k in Keys(c.backstores) ::
              k in fs.tree.objs && fs.tree.objs[k] == old(fs.tree).objs[k]
    ensures ObjsShrink(old(fs.tree).objs, fs.tree.objs)
    ensures err == Ok ==> fs.tree.targets == Iqns(c.targets) && NodesRealised(fs.tree.nodes, c)
    ensures err == Ok ==> fs.tree.objs.Keys <= Keys(c.backstores)
    ensures Realised(old(fs.tree), c) ==> fs.tree == old(fs.tree) && fs.writes == old(fs.writes)
  {
    if NodesRealised(fs.tree.nodes, c) {
      RealisedExact(fs.tree.nodes, c);
    }
    err := PruneTargets(fs, c);
    if err != Ok { return; }
    ExactRealised(fs.tree.nodes, c);
    err := PruneBackstores(fs, c);
  }

  lemma SamePortalsLinks(t0: Tree, t1: Tree)
    requires SamePortalsAside(t0, t1)
    ensures forall p, i :: LinkAt(t1.nodes, p, i) == LinkAt(t0.nodes, p, i)
  {
  }

  lemma CountedMoves(n0: map<Path, Node>, n1: map<Path, Node>, r0: nat, r1: nat)
    requires Counted(n0, n1, r0, r1)
    ensures MovesCounted(n0, n1, r0, r1)
  {
  }

  /** Links that only go after a pass that counted are counted. */
  lemma CountedThenShrinks(n0: map<Path, Node>, n1: map<Path, Node>, n2: map<Path, Node>, r0: nat, r1: nat)
    requires Counted(n0, n1, r0, r1) && Shrinks(n1, n2)
    ensures MovesCounted(n0, n2, r0, r1)
  {
    forall p, i | r1 == r0 && LinkAt(n0, p, i).Some? && LinkAt(n2, p, i).Some? ensures LinkAt(n2, p, i) == LinkAt(n0, p, i) {
      assert LinkAt(n2, p, i) == LinkAt(n1, p, i);
    }
  }

  /** What an Apply that succeeded leaves to the prune. */
  ghost predicate Applied(t0: Tree, t1: Tree, c: Config, drift: seq<Drift>, records: map<Key, seq<string>>, r0: nat, r1: nat) {
    && Added(t0, t1, c) && Toward(t0.nodes, t1.nodes, c) && Counted(t0.nodes, t1.nodes, r0, r1)
    && ObjsFrom(t0.objs, t1.objs, c.backstores, records) && BackstoresDone(t1.objs, c.backstores, drift)
  }

  method PruneApplied(fs: Configfs, c: Config, ghost t0: Tree, ghost drift: seq<Drift>, ghost records: map<Key, seq<string>>, ghost r0: nat)
    returns (err: Err)
    requires fs.Inv() && Valid(c) && Applied(t0, fs.tree, c, drift, records, r0, fs.repoints)
    modifies fs`tree, fs`writes, fs`owed
    ensures fs.Inv() && err in {Ok, Io, Inval} && (fs.faults || err == Ok)
    ensures Toward(t0.nodes, fs.tree.nodes, c) && MovesCounted(t0.nodes, fs.tree.nodes, r0, fs.repoints)
    ensures ObjsFrom(t0.objs, fs.tree.objs, c.backstores, records)
    ensures err == Ok ==> Realised(fs.tree, c) && BackstoresDone(fs.tree.objs, c.backstores, drift)
    ensures Realised(old(fs.tree), c) ==> fs.tree == old(fs.tree) && fs.writes == old(fs.writes)
  {
    ghost var t1 := fs.tree;
    CountedMoves(t0.nodes, t1.nodes, r0, fs.repoints);
    AppliedHold(t0, t1, c);
    err := fs.Readable(); // Discover
    if err != Ok { return; }
    err := Prune(fs, c);
    TowardThenShrinks(t0.nodes, t1.nodes, fs.tree.nodes, c);
    CountedThenShrinks(t0.nodes, t1.nodes, fs.tree.nodes, r0, fs.repoints);
    ObjsFromShrink(t0.objs, t1.objs, fs.tree.objs, c.backstores, records);
    if err == Ok {
      PrunedRealised(t1, fs.tree, c, drift);
    }
  }

  /** Apply, then prune whatever is left over. */
  method ApplyAndPrune(fs: Configfs, c: Config, records: map<Key, seq<string>>) returns (err: Err, drift: seq<Drift>)
    requires fs.Inv() && Valid(c)
    modifies fs`tree, fs`writes, fs`repoints, fs`owed
    ensures fs.Inv() && err in {Ok, Io, Inval, Invalid, Incompatible, Refused}
    ensures TargetsReady(old(fs.tree).nodes, c.targets) ==> err != Refused
    ensures TargetsReady(old(fs.tree).nodes, c.targets) && AllServable(c.backstores, old(fs.tree), records) ==> fs.faults || err == Ok
    ensures MovesCounted(old(fs.tree).nodes, fs.tree.nodes, old(fs.repoints), fs.repoints)
    ensures Toward(old(fs.tree).nodes, fs.tree.nodes, c)
    ensures NoClash(old(fs.tree).nodes, c) ==> fs.repoints == old(fs.repoints)
    ensures ObjsFrom(old(fs.tree).objs, fs.tree.objs, c.backstores, records)
    ensures err == Ok ==> Realised(fs.tree, c) && BackstoresDone(fs.tree.objs, c.backstores, drift)
    ensures err == Ok ==> Named(drift, Names(c.backstores))
    ensures Realised(old(fs.tree), c) ==> SameTopology(old(fs.tree), fs.tree)
    ensures Realised(old(fs.tree), c) && BackstoresSettled(old(fs.tree).objs, c.backstores) ==>
              fs.tree == old(fs.tree) && fs.writes == old(fs.writes)
  {
    ghost var t0 := fs.tree;
    SteadyIf(t0, c);
    err, drift := ApplyConfig(fs, c, records);
    ghost var t1 := fs.tree;
    StillIf(t0, t1, c);
    CountedMoves(t0.nodes, t1.nodes, old(fs.repoints), fs.repoints);
    if err == Ok {
      err := PruneApplied(fs, c, t0, drift, records, old(fs.repoints));
    }
  }

  lemma ObjsFromShrink(o0: map<Key, Obj>, o1: map<Key, Obj>, o2: map<Key, Obj>, bs: seq<Backstore>, records: map<Key, seq<string>>)
    requires ObjsFrom(o0, o1, bs, records) && ObjsShrink(o1, o2)
    ensures ObjsFrom(o0, o2, bs, records)
  {
  }

  lemma PrunedRealised(t1: Tree, t2: Tree, c: Config, drift: seq<Drift>)
    requires BackstoresDone(t1.objs, c.backstores, drift)
    requires t2.objs.Keys <= Keys(c.backstores) && t2.targets == Iqns(c.targets) && NodesRealised(t2.nodes, c)
    requires forall k | k in t1.objs && k in Keys(c.backstores) :: k in t2.objs && t2.objs[k] == t1.objs[k]
    ensures Realised(t2, c) && BackstoresDone(t2.objs, c.backstores, drift)
  {
  }

  ghost predicate SameTopology(t0: Tree, t1: Tree) {
    t1.objs.Keys == t0.objs.Keys && t1.targets == t0.targets && t1.nodes == t0.nodes
  }

  lemma StillRealised(t0: Tree, t1: Tree, c: Config)
    requires Realised(t0, c) && t1.nodes == t0.nodes && t1.targets == t0.targets
    requires OnlyObjs(t0, t1.(nodes := t0.nodes, targets := t0.targets), Keys(c.backstores))
    ensures Realised(t1, c) && SameTopology(t0, t1)
  {
  }

  lemma SteadyIf(t: Tree, c: Config)
    requires Valid(c)
    ensures Realised(t, c) ==> TargetsHeld(t, c.targets, KeyMap(c.backstores)) && PortalsSteady(t.nodes, c)
  {
    if Realised(t, c) {
      RealisedSteady(t, c);
    }
  }

  lemma StillIf(t0: Tree, t1: Tree, c: Config)
    requires OnlyObjs(t0, t1.(nodes := t0.nodes, targets := t0.targets), Keys(c.backstores))
    ensures Realised(t0, c) && t1.nodes == t0.nodes && t1.targets == t0.targets ==> Realised(t1, c) && SameTopology(t0, t1)
  {
    if Realised(t0, c) && t1.nodes == t0.nodes && t1.targets == t0.targets {
      StillRealised(t0, t1, c);
    }
  }

  /** Sync (lio/sync.go:25-107).  From any well-formed tree it never removes a referenced
      object; on success the topology is exactly c; and from a tree that already is c it
      leaves the topology alone, and writes nothing at all when the objects are settled. */
  method SyncConfig(fs: Configfs, c: Config, records: map<Key, seq<string>>) returns (err: Err, drift: seq<Drift>)
    requires fs.Inv()
    modifies fs`tree, fs`writes, fs`repoints, fs`owed
    ensures fs.Inv() && err in {Ok, Io, Inval, Invalid, Incompatible, Refused}
    ensures !Valid(c) ==> err == Invalid && fs.tree == old(fs.tree) && fs.writes == old(fs.writes)
    ensures PortalsFit(c) ==> err != Refused
    // without faults, and with nothing in the way of a backstore, it succeeds
    ensures Valid(c) && PortalsFit(c) && AllServable(c.backstores, old(fs.tree), records) ==> fs.faults || err == Ok
    ensures MovesCounted(old(fs.tree).nodes, fs.tree.nodes, old(fs.repoints), fs.repoints)
    ensures Toward(old(fs.tree).nodes, fs.tree.nodes, c)
    ensures Valid(c) && NoClash(old(fs.tree).nodes, c) ==> fs.repoints == old(fs.repoints)
    ensures ObjsFrom(old(fs.tree).objs, fs.tree.objs, c.backstores, records)
    ensures err == Ok ==> Valid(c) && Realised(fs.tree, c) && BackstoresDone(fs.tree.objs, c.backstores, drift)
    ensures err == Ok ==> Named(drift, Names(c.backstores))
    ensures Valid(c) && Realised(old(fs.tree), c) ==> SameTopology(old(fs.tree), fs.tree)
    ensures Valid(c) && Realised(old(fs.tree), c) && BackstoresSettled(old(fs.tree).objs, c.backstores) ==>
              fs.tree == old(fs.tree) && fs.writes == old(fs.writes)
  {
    drift := [];
    var ok := Validate(c);
    if ok {
      err, drift := SyncValid(fs, c, records);
    } else {
      err := Invalid;
      SameTree(fs.tree, c, fs.repoints, records);
    }
  }

  lemma SameTree(t: Tree, c: Config, r: nat, records: map<Key, seq<string>>)
    ensures Toward(t.nodes, t.nodes, c) && MovesCounted(t.nodes, t.nodes, r, r) && ObjsFrom(t.objs, t.objs, c.backstores, records)
  {
  }

  /** Sync of a valid config: unblock the portals, apply, prune. */
  method SyncValid(fs: Configfs, c: Config, records: map<Key, seq<string>>) returns (err: Err, drift: seq<Drift>)
    requires fs.Inv() && Valid(c)
    modifies fs`tree, fs`writes, fs`repoints, fs`owed
    ensures fs.Inv() && err in {Ok, Io, Inval, Invalid, Incompatible, Refused}
    ensures PortalsFit(c) ==> err != Refused
    ensures PortalsFit(c) && AllServable(c.backstores, old(fs.tree), records) ==> fs.faults || err == Ok
    ensures MovesCounted(old(fs.tree).nodes, fs.tree.nodes, old(fs.repoints), fs.repoints)
    ensures Toward(old(fs.tree).nodes, fs.tree.nodes, c)
    ensures NoClash(old(fs.tree).nodes, c) ==> fs.repoints == old(fs.repoints)
    ensures ObjsFrom(old(fs.tree).objs, fs.tree.objs, c.backstores, records)
    ensures err == Ok ==> Realised(fs.tree, c) && BackstoresDone(fs.tree.objs, c.backstores, drift)
    ensures err == Ok ==> Named(drift, Names(c.backstores))
    ensures Realised(old(fs.tree), c) ==> SameTopology(old(fs.tree), fs.tree)
    ensures Realised(old(fs.tree), c) && BackstoresSettled(old(fs.tree).objs, c.backstores) ==>
              fs.tree == old(fs.tree) && fs.writes == old(fs.writes)
  {
    drift := [];
    ghost var t0 := fs.tree;
    SteadyIf(t0, c);
    err := PruneConflicting(fs, c);
    LinksSame(t0, fs.tree, c, fs.repoints, records);
    if err == Ok {
      err, drift := ApplyUnblocked(fs, c, records, t0);
    }
  }

  /** The rest, with no portal in the way. */
  method ApplyUnblocked(fs: Configfs, c: Config, records: map<Key, seq<string>>, ghost t0: Tree) returns (err: Err, drift: seq<Drift>)
    requires fs.Inv() && Valid(c) && SamePortalsAside(t0, fs.tree)
    requires forall p | p in fs.tree.nodes :: Unblocked(t0.nodes, fs.tree.nodes, p, c)
    modifies fs`tree, fs`writes, fs`repoints, fs`owed
    ensures fs.Inv() && err in {Ok, Io, Inval, Invalid, Incompatible, Refused}
    ensures PortalsFit(c) ==> err != Refused
    ensures PortalsFit(c) && AllServable(c.backstores, t0, records) ==> fs.faults || err == Ok
    ensures MovesCounted(t0.nodes, fs.tree.nodes, old(fs.repoints), fs.repoints)
    ensures Toward(t0.nodes, fs.tree.nodes, c)
    ensures NoClash(t0.nodes, c) ==> fs.repoints == old(fs.repoints)
    ensures ObjsFrom(t0.objs, fs.tree.objs, c.backstores, records)
    ensures err == Ok ==> Realised(fs.tree, c) && BackstoresDone(fs.tree.objs, c.backstores, drift)
    ensures err == Ok ==> Named(drift, Names(c.backstores))
    ensures Realised(old(fs.tree), c) ==> SameTopology(old(fs.tree), fs.tree)
    ensures Realised(old(fs.tree), c) && BackstoresSettled(old(fs.tree).objs, c.backstores) ==>
              fs.tree == old(fs.tree) && fs.writes == old(fs.writes)
  {
    ghost var t1, r0 := fs.tree, fs.repoints;
    ReadyIf(t0, t1, c);
    LinksSame(t0, t1, c, r0, records);
    ServableSame(t0, t1, c.backstores, records);
    err, drift := ApplyAndPrune(fs, c, records);
    TowardFrom(t0, t1, fs.tree, c, r0, fs.repoints);
  }

  lemma ServableSame(t0: Tree, t1: Tree, bs: seq<Backstore>, records: map<Key, seq<string>>)
    requires t1.objs == t0.objs
    ensures AllServable(bs, t0, records) ==> AllServable(bs, t1, records)
  {
  }

  lemma LinksSame(t0: Tree, t1: Tree, c: Config, r: nat, records: map<Key, seq<string>>)
    requires SamePortalsAside(t0, t1)
    ensures ObjsFrom(t0.objs, t1.objs, c.backstores, records)
    ensures Toward(t0.nodes, t1.nodes, c) && MovesCounted(t0.nodes, t1.nodes, r, r) && (NoClash(t0.nodes, c) ==> NoClash(t1.nodes, c))
  {
    SamePortalsLinks(t0, t1);
  }

  lemma ReadyIf(t0: Tree, t1: Tree, c: Config)
    requires Valid(c) && SamePortalsAside(t0, t1)
    requires forall p | p in t1.nodes :: Unblocked(t0.nodes, t1.nodes, p, c)
    ensures PortalsFit(c) ==> TargetsReady(t1.nodes, c.targets)
  {
    if PortalsFit(c) {
      UnblockedReady(t0, t1, c);
    }
  }

  lemma TowardFrom(t0: Tree, t1: Tree, t2: Tree, c: Config, r0: nat, r1: nat)
    requires SamePortalsAside(t0, t1) && Toward(t1.nodes, t2.nodes, c) && MovesCounted(t1.nodes, t2.nodes, r0, r1)
    ensures Toward(t0.nodes, t2.nodes, c) && MovesCounted(t0.nodes, t2.nodes, r0, r1)
  {
    SamePortalsLinks(t0, t1);
  }

  /** With no drift to report, the objects are settled, so another Sync finds nothing to do. */
  lemma NoDriftSettled(objs: map<Key, Obj>, bs: seq<Backstore>)
    requires BackstoresDone(objs, bs, [])
    requires forall b | b in bs :: Constrained(b, objs[b.key]) == b.attrs
    ensures BackstoresSettled(objs, bs)
  {
  }

  /** A second Sync of the same config leaves the topology alone; if the first reported no
      drift and built every object in its desired mode, it makes no change of any kind. */
  method SyncTwice(fs: Configfs, c: Config, records: map<Key, seq<string>>)
    returns (err: Err, drift: seq<Drift>, again: Err, ghost mid: Tree, ghost midWrites: nat)
    requires fs.Inv()
    modifies fs`tree, fs`writes, fs`repoints, fs`owed
    ensures fs.Inv()
    ensures err == Ok ==> Realised(mid, c) && SameTopology(mid, fs.tree)
    ensures err == Ok && drift == [] && (forall b | b in c.backstores :: b.key in mid.objs && Constrained(b, mid.objs[b.key]) == b.attrs) ==>
              fs.tree == mid && fs.writes == midWrites
  {
    err, drift := SyncConfig(fs, c, records);
    mid, midWrites := fs.tree, fs.writes;
    again := err;
    if err == Ok {
      if drift == [] && (forall b | b in c.backstores :: b.key in mid.objs && Constrained(b, mid.objs[b.key]) == b.attrs) {
        NoDriftSettled(fs.tree.objs, c.backstores);
      }
      var drift';
      again, drift' := SyncConfig(fs, c, records);
    }
  }
}
