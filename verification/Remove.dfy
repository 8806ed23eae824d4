/** Removal helpers (lio/removal.go, lio/iscsi.go:289-339, lio/backstore.go:897-907).
    Each removes children before parents and links before the objects they reference,
    so a Busy answer is possible only where a contract says so. */
module Remove {
  import opened LioConfig
  import opened Kernel
  import opened Topology

  /** No link appears: every one in n1 was already in n0. */
  ghost predicate Shrinks(n0: map<Path, Node>, n1: map<Path, Node>) {
    forall p, i :: LinkAt(n1, p, i).Some? ==> LinkAt(n1, p, i) == LinkAt(n0, p, i)
  }

  lemma ShrinksTrans(n0: map<Path, Node>, n1: map<Path, Node>, n2: map<Path, Node>)
    requires Shrinks(n0, n1) && Shrinks(n1, n2)
    ensures Shrinks(n0, n2)
  {
    forall p, i | LinkAt(n2, p, i).Some?
      ensures LinkAt(n2, p, i) == LinkAt(n0, p, i)
    {
      assert LinkAt(n2, p, i) == LinkAt(n1, p, i);
    }
  }

  ghost predicate LunsShrink(l0: map<int, Option<Key>>, l1: map<int, Option<Key>>) {
    forall i | i in l1 && l1[i].Some? :: i in l0 && l0[i] == l1[i]
  }

  lemma NodeShrinks(t0: Tree, t1: Tree, p: Path)
    requires OnlyNode(t0, t1, p) && p in t0.nodes && LunsShrink(t0.nodes[p].luns, t1.nodes[p].luns)
    ensures Shrinks(t0.nodes, t1.nodes)
  {
  }

  /** Any element: directories are listed in an order nothing here relies on. */
  method Pick<T>(s: set<T>) returns (x: T)
    requires s != {}
    ensures x in s
  {
    x :| x in s;
  }

  // ----- inside a TPG -----

  /** removeLUN: unlink, then rmdir.  It is refused only while a mapped LUN still points here. */
  method RemoveLun(fs: Configfs, p: Path, i: int) returns (err: Err)
    requires fs.Inv() && p in fs.tree.nodes
    modifies fs`tree, fs`writes
    ensures fs.Inv() && OnlyNode(old(fs.tree), fs.tree, p) && err in {Ok, Io, Inval, Busy}
    ensures fs.faults || err !in {Io, Inval}
    ensures err == Busy ==> Mapped(old(fs.tree).nodes[p].acls, i)
    ensures fs.tree.nodes[p] == old(fs.tree).nodes[p].(luns := fs.tree.nodes[p].luns)
    ensures LunsShrink(old(fs.tree).nodes[p].luns, fs.tree.nodes[p].luns)
    ensures Dropped(old(fs.tree).nodes[p].luns, fs.tree.nodes[p].luns, {i})
    ensures err == Ok ==> i !in fs.tree.nodes[p].luns
  {
    err := fs.OnNode(p, UnlinkLun(i));
    if err != Ok { return; }
    err := fs.OnNode(p, RmLun(i));
  }

  /** Two nodes that differ at most by losing mapped LUN j of ACL a. */
  ghost predicate DropsMapping(n0: Node, n1: Node, a: string, j: int) {
    && n1 == n0.(acls := n1.acls) && n1.acls.Keys == n0.acls.Keys
    && (forall b | b in n0.acls && b != a :: n1.acls[b] == n0.acls[b])
    && (a in n0.acls ==> n1.acls[a].Keys <= n0.acls[a].Keys)
    && (a in n0.acls ==> forall i | i in n0.acls[a] && i != j :: i in n1.acls[a] && n1.acls[a][i] == n0.acls[a][i])
  }

  method UnlinkMappedLun(fs: Configfs, p: Path, a: string, j: int) returns (err: Err)
    requires fs.Inv() && p in fs.tree.nodes
    modifies fs`tree, fs`writes
    ensures fs.Inv() && OnlyNode(old(fs.tree), fs.tree, p) && err in {Ok, Io, Inval}
    ensures fs.faults || err !in {Io, Inval}
    ensures DropsMapping(old(fs.tree).nodes[p], fs.tree.nodes[p], a, j)
    ensures err == Ok && HasMapped(fs.tree.nodes[p], a, j) ==> fs.tree.nodes[p].acls[a][j].link == None
  {
    err := fs.OnNode(p, UnlinkMapped(a, j));
  }

  /** removeMappedLUN: unlink, then rmdir. */
  method RemoveMapped(fs: Configfs, p: Path, a: string, j: int) returns (err: Err)
    requires fs.Inv() && p in fs.tree.nodes
    modifies fs`tree, fs`writes
    ensures fs.Inv() && OnlyNode(old(fs.tree), fs.tree, p) && err in {Ok, Io, Inval}
    ensures fs.faults || err !in {Io, Inval}
    ensures DropsMapping(old(fs.tree).nodes[p], fs.tree.nodes[p], a, j)
    ensures err == Ok ==> !HasMapped(fs.tree.nodes[p], a, j)
  {
    err := UnlinkMappedLun(fs, p, a, j);
    if err != Ok { return; }
    err := fs.OnNode(p, RmMapped(a, j));
  }

  /** Two nodes that differ at most in ACLs, and there only by losing some. */
  ghost predicate DropsAcls(n0: Node, n1: Node) {
    && n1 == n0.(acls := n1.acls) && n1.acls.Keys <= n0.acls.Keys
  }

  ghost predicate OthersKept(n0: Node, n1: Node, a: string) {
    forall b | b in n0.acls && b != a :: b in n1.acls && n1.acls[b] == n0.acls[b]
  }

  /** What is left of a directory listing once the names in gone are removed, or some of them. */
  ghost predicate Dropped<V>(m0: map<int, V>, m1: map<int, V>, gone: set<int>) {
    m1.Keys <= m0.Keys && forall i | i in m0 && i !in gone :: i in m1 && m1[i] == m0[i]
  }

  method RemoveMappedSet(fs: Configfs, p: Path, a: string, gone: set<int>) returns (err: Err)
    requires fs.Inv() && p in fs.tree.nodes && a in fs.tree.nodes[p].acls
    modifies fs`tree, fs`writes
    ensures fs.Inv() && OnlyNode(old(fs.tree), fs.tree, p) && err in {Ok, Io, Inval}
    ensures fs.faults || err !in {Io, Inval}
    ensures DropsAcls(old(fs.tree).nodes[p], fs.tree.nodes[p]) && OthersKept(old(fs.tree).nodes[p], fs.tree.nodes[p], a)
    ensures a in fs.tree.nodes[p].acls && Dropped(old(fs.tree).nodes[p].acls[a], fs.tree.nodes[p].acls[a], gone)
    ensures err == Ok ==> fs.tree.nodes[p].acls[a].Keys !! gone
    ensures gone == {} ==> fs.tree == old(fs.tree) && fs.writes == old(fs.writes)
  {
    ghost var n0 := fs.tree.nodes[p];
    var rest := gone;
    err := Ok;
    while rest != {}
      invariant fs.Inv() && OnlyNode(old(fs.tree), fs.tree, p) && err == Ok && rest <= gone
      invariant DropsAcls(n0, fs.tree.nodes[p]) && OthersKept(n0, fs.tree.nodes[p], a)
      invariant a in fs.tree.nodes[p].acls && Dropped(n0.acls[a], fs.tree.nodes[p].acls[a], gone)
      invariant fs.tree.nodes[p].acls[a].Keys !! (gone - rest)
      invariant gone == {} ==> fs.tree == old(fs.tree) && fs.writes == old(fs.writes)
      decreases rest
    {
      var j := Pick(rest);
      err := RemoveMapped(fs, p, a, j);
      if err != Ok { return; }
      rest := rest - {j};
    }
  }

  /** removeACL: its mapped LUNs, then the ACL. */
  method RemoveAcl(fs: Configfs, p: Path, a: string) returns (err: Err)
    requires fs.Inv() && p in fs.tree.nodes
    modifies fs`tree, fs`writes
    ensures fs.Inv() && OnlyNode(old(fs.tree), fs.tree, p) && err in {Ok, Io, Inval}
    ensures fs.faults || err !in {Io, Inval}
    ensures DropsAcls(old(fs.tree).nodes[p], fs.tree.nodes[p]) && OthersKept(old(fs.tree).nodes[p], fs.tree.nodes[p], a)
    ensures err == Ok ==> a !in fs.tree.nodes[p].acls
  {
    err := fs.Readable();
    if err != Ok || a !in fs.tree.nodes[p].acls { return; }
    err := RemoveMappedSet(fs, p, a, fs.tree.nodes[p].acls[a].Keys);
    if err != Ok { return; }
    assert fs.tree.nodes[p].acls[a] == map[];
    err := fs.OnNode(p, RmAcl(a));
  }

  // ----- whole TPGs, targets and backstores -----

  method RemoveAcls(fs: Configfs, p: Path) returns (err: Err)
    requires fs.Inv() && p in fs.tree.nodes
    modifies fs`tree, fs`writes
    ensures fs.Inv() && OnlyNode(old(fs.tree), fs.tree, p) && err in {Ok, Io, Inval}
    ensures fs.faults || err !in {Io, Inval}
    ensures DropsAcls(old(fs.tree).nodes[p], fs.tree.nodes[p])
    ensures err == Ok ==> fs.tree.nodes[p].acls == map[]
  {
    err := Ok;
    var rest := fs.tree.nodes[p].acls.Keys;
    while rest != {}
      invariant fs.Inv() && OnlyNode(old(fs.tree), fs.tree, p) && err == Ok
      invariant DropsAcls(old(fs.tree).nodes[p], fs.tree.nodes[p]) && fs.tree.nodes[p].acls.Keys <= rest
      decreases rest
    {
      var a :| a in rest;
      err := RemoveAcl(fs, p, a);
      if err != Ok { return; }
      rest := rest - {a};
    }
  }

  /** Remove the LUNs in gone, none of which a mapped LUN points at. */
  method RemoveLunSet(fs: Configfs, p: Path, gone: set<int>) returns (err: Err)
    requires fs.Inv() && p in fs.tree.nodes && forall i | i in gone :: !Mapped(fs.tree.nodes[p].acls, i)
    modifies fs`tree, fs`writes
    ensures fs.Inv() && OnlyNode(old(fs.tree), fs.tree, p) && err in {Ok, Io, Inval}
    ensures fs.faults || err !in {Io, Inval}
    ensures fs.tree.nodes[p] == old(fs.tree).nodes[p].(luns := fs.tree.nodes[p].luns)
    ensures LunsShrink(old(fs.tree).nodes[p].luns, fs.tree.nodes[p].luns)
    ensures Dropped(old(fs.tree).nodes[p].luns, fs.tree.nodes[p].luns, gone)
    ensures err == Ok ==> fs.tree.nodes[p].luns.Keys !! gone
    ensures gone == {} ==> fs.tree == old(fs.tree) && fs.writes == old(fs.writes)
  {
    ghost var n0 := fs.tree.nodes[p];
    var rest := gone;
    err := Ok;
    while rest != {}
      invariant fs.Inv() && OnlyNode(old(fs.tree), fs.tree, p) && err == Ok && rest <= gone
      invariant fs.tree.nodes[p] == n0.(luns := fs.tree.nodes[p].luns)
      invariant LunsShrink(n0.luns, fs.tree.nodes[p].luns) && Dropped(n0.luns, fs.tree.nodes[p].luns, gone)
      invariant fs.tree.nodes[p].luns.Keys !! (gone - rest)
      invariant gone == {} ==> fs.tree == old(fs.tree) && fs.writes == old(fs.writes)
      decreases rest
    {
      var i := Pick(rest);
      err := RemoveLun(fs, p, i);
      if err != Ok { return; }
      rest := rest - {i};
    }
  }

  method RemovePortals(fs: Configfs, p: Path, gone: set<Portal>) returns (err: Err)
    requires fs.Inv() && p in fs.tree.nodes
    modifies fs`tree, fs`writes
    ensures fs.Inv() && OnlyNode(old(fs.tree), fs.tree, p) && err in {Ok, Io, Inval}
    ensures fs.faults || err !in {Io, Inval}
    ensures fs.tree.nodes[p] == old(fs.tree).nodes[p].(portals := fs.tree.nodes[p].portals)
    ensures old(fs.tree).nodes[p].portals - gone <= fs.tree.nodes[p].portals <= old(fs.tree).nodes[p].portals
    ensures err == Ok ==> fs.tree.nodes[p].portals == old(fs.tree).nodes[p].portals - gone
    ensures gone == {} ==> fs.tree == old(fs.tree) && fs.writes == old(fs.writes)
  {
    var rest := gone;
    err := Ok;
    while rest != {}
      invariant fs.Inv() && OnlyNode(old(fs.tree), fs.tree, p) && rest <= gone && err == Ok
      invariant fs.tree.nodes[p] == old(fs.tree).nodes[p].(portals := fs.tree.nodes[p].portals)
      invariant fs.tree.nodes[p].portals == old(fs.tree).nodes[p].portals - (gone - rest)
      invariant gone == {} ==> fs.tree == old(fs.tree) && fs.writes == old(fs.writes)
      decreases rest
    {
      var q :| q in rest;
      err := fs.OnNode(p, RmPortal(q));
      if err != Ok { return; }
      rest := rest - {q};
    }
  }

  ghost predicate Without(t0: Tree, t1: Tree, p: Path) {
    && t1.targets == t0.targets && t1.objs == t0.objs && t1.nodes.Keys <= t0.nodes.Keys
    && forall q | q in t0.nodes && q != p :: q in t1.nodes && t1.nodes[q] == t0.nodes[q]
  }

  /** removeTPG: ACLs, LUNs, portals, then the TPG. */
  method RemoveTpg(fs: Configfs, p: Path) returns (err: Err)
    requires fs.Inv() && p in fs.tree.nodes
    modifies fs`tree, fs`writes, fs`owed
    ensures fs.Inv() && fs.owed == old(fs.owed) && err in {Ok, Io, Inval}
    ensures fs.faults || err !in {Io, Inval}
    ensures Without(old(fs.tree), fs.tree, p) && Shrinks(old(fs.tree).nodes, fs.tree.nodes)
    ensures err == Ok ==> p !in fs.tree.nodes
  {
    err := EmptyTpg(fs, p);
    NodeShrinks(old(fs.tree), fs.tree, p);
    if err != Ok { return; }
    err := fs.OnDir(RmTpg(p));
  }

  method EmptyTpg(fs: Configfs, p: Path) returns (err: Err)
    requires fs.Inv() && p in fs.tree.nodes
    modifies fs`tree, fs`writes
    ensures fs.Inv() && OnlyNode(old(fs.tree), fs.tree, p) && err in {Ok, Io, Inval}
    ensures fs.faults || err !in {Io, Inval}
    ensures LunsShrink(old(fs.tree).nodes[p].luns, fs.tree.nodes[p].luns)
    ensures err == Ok ==> fs.tree.nodes[p].(enable := false) == EMPTY_NODE
  {
    err := RemoveAcls(fs, p);
    if err != Ok { return; }
    err := RemoveLunSet(fs, p, fs.tree.nodes[p].luns.Keys);
    if err != Ok { return; }
    assert fs.tree.nodes[p].luns == map[];
    err := RemovePortals(fs, p, fs.tree.nodes[p].portals);
  }

  /** Everything outside one target is as it was. */
  ghost predicate WithoutIqn(t0: Tree, t1: Tree, iqn: string) {
    && t1.objs == t0.objs && t1.nodes.Keys <= t0.nodes.Keys
    && t0.targets - {iqn} <= t1.targets <= t0.targets
    && forall q | q in t0.nodes && q.iqn != iqn :: q in t1.nodes && t1.nodes[q] == t0.nodes[q]
  }

  /** removeTarget: its TPGs, then the target. */
  method RemoveTarget(fs: Configfs, iqn: string) returns (err: Err)
    requires fs.Inv()
    modifies fs`tree, fs`writes, fs`owed
    ensures fs.Inv() && fs.owed == old(fs.owed) && err in {Ok, Io, Inval}
    ensures fs.faults || err !in {Io, Inval}
    ensures WithoutIqn(old(fs.tree), fs.tree, iqn) && Shrinks(old(fs.tree).nodes, fs.tree.nodes)
    ensures err == Ok ==> iqn !in fs.tree.targets && forall p | p in fs.tree.nodes :: p.iqn != iqn
  {
    err := fs.Readable();
    if err != Ok { return; }
    var rest := set p | p in fs.tree.nodes && p.iqn == iqn;
    while rest != {}
      invariant fs.Inv() && fs.owed == old(fs.owed) && WithoutIqn(old(fs.tree), fs.tree, iqn)
      invariant Shrinks(old(fs.tree).nodes, fs.tree.nodes) && err == Ok
      invariant forall p | p in fs.tree.nodes && p.iqn == iqn :: p in rest
      invariant rest <= fs.tree.nodes.Keys && forall p | p in rest :: p.iqn == iqn
      decreases rest
    {
      var p :| p in rest;
      ghost var t1 := fs.tree;
      err := RemoveTpg(fs, p);
      ShrinksTrans(old(fs.tree).nodes, t1.nodes, fs.tree.nodes);
      if err != Ok { return; }
      rest := rest - {p};
    }
    err := fs.OnDir(RmTarget(iqn));
  }

  /** Objects are only lost, none is changed. */
  ghost predicate ObjsShrink(o0: map<Key, Obj>, o1: map<Key, Obj>) {
    forall k | k in o1 :: k in o0 && o1[k] == o0[k]
  }

  /** removeBackstore: refused only while a LUN links to the object. */
  method RemoveBackstore(fs: Configfs, k: Key) returns (err: Err)
    requires fs.Inv()
    modifies fs`tree, fs`writes, fs`owed
    ensures fs.Inv() && err in {Ok, Io, Inval, Busy}
    ensures fs.faults || err !in {Io, Inval}
    ensures err == Busy ==> Exported(old(fs.tree), k)
    ensures fs.tree.nodes == old(fs.tree).nodes && fs.tree.targets == old(fs.tree).targets
    ensures ObjsShrink(old(fs.tree).objs, fs.tree.objs)
    ensures forall q | q in old(fs.tree).objs && q != k :: q in fs.tree.objs && fs.tree.objs[q] == old(fs.tree).objs[q]
    ensures err == Ok ==> k !in fs.tree.objs
  {
    err := fs.OnDir(RmObj(k));
  }
}
