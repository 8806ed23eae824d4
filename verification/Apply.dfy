/** Manager.Apply (lio/config.go:208-230): every backstore, then every target. */
module Apply {
  import opened LioConfig
  import opened Kernel
  import opened Topology
  import opened Backstores
  import opened Ensure

  ghost predicate OnlyPath(n0: map<Path, Node>, n1: map<Path, Node>, p: Path) {
    && n0.Keys <= n1.Keys <= n0.Keys + {p}
    && forall q | q in n0 && q != p :: n1[q] == n0[q]
  }

  lemma NodeToward(n0: map<Path, Node>, n1: map<Path, Node>, p: Path, goal: Config)
    requires OnlyPath(n0, n1, p)
    requires p in n1 ==> LunsToward(NodeAt(n0, p).luns, n1[p].luns, p, goal)
    ensures Toward(n0, n1, goal)
  {
  }

  lemma TowardTrans(n0: map<Path, Node>, n1: map<Path, Node>, n2: map<Path, Node>, goal: Config)
    requires Toward(n0, n1, goal) && Toward(n1, n2, goal)
    ensures Toward(n0, n2, goal)
  {
    forall p, i | LinkAt(n2, p, i).Some? && LinkAt(n2, p, i) != LinkAt(n0, p, i)
      ensures Goal(goal, p, i, LinkAt(n2, p, i).value)
    {
      assert LinkAt(n2, p, i) == LinkAt(n1, p, i) || LinkAt(n2, p, i) != LinkAt(n1, p, i);
    }
  }

  /** The same TPGs, each enabled as before. */
  ghost predicate SameEnables(n0: map<Path, Node>, n1: map<Path, Node>) {
    n1.Keys == n0.Keys && forall p | p in n0 :: n1[p].enable == n0[p].enable
  }

  ghost predicate EnablesAgree(nodes: map<Path, Node>, iqn: string, gs: seq<TPG>) {
    forall g | g in gs :: Path(iqn, g.tag) in nodes && nodes[Path(iqn, g.tag)].enable == g.enable
  }

  // ----- one TPG -----

  /** What a caller may ask of one TPG: resolvable aims, and no LUN twice. */
  ghost predicate TpgFits(g: TPG, p: Path, names: map<string, Key>, goal: Config) {
    && (forall i, j :: 0 <= i < j < |g.luns| ==> g.luns[i].index != g.luns[j].index)
    && LunsAimed(g.luns, p, names, goal)
  }

  /** Every mapped LUN of the TPG leads to a LUN it asks for or has. */
  ghost predicate TpgWired(g: TPG, n: Node) {
    AclsWired(g.acls, n.luns.Keys + LunIndices(g.luns))
  }

  method MakeTpg(fs: Configfs, p: Path) returns (err: Err)
    requires fs.Inv() && p.iqn in fs.tree.targets
    modifies fs`tree, fs`writes, fs`owed
    ensures fs.Inv() && fs.owed == old(fs.owed) && err in {Ok, Io, Inval}
    ensures fs.faults || err !in {Io, Inval}
    ensures fs.tree.objs == old(fs.tree).objs && fs.tree.targets == old(fs.tree).targets
    ensures OnlyPath(old(fs.tree).nodes, fs.tree.nodes, p)
    ensures NodeAt(fs.tree.nodes, p) == NodeAt(old(fs.tree).nodes, p)
    ensures err == Ok ==> p in fs.tree.nodes
    ensures p in old(fs.tree).nodes ==> fs.tree == old(fs.tree) && fs.writes == old(fs.writes)
  {
    err := fs.Readable();
    if err != Ok { return; }
    if p !in fs.tree.nodes {
      err := fs.OnDir(MkTpg(p));
    }
  }

  /** The enable flag, written last (lio/iscsi.go:119-134). */
  method EnsureEnable(fs: Configfs, p: Path, on: bool) returns (err: Err)
    requires fs.Inv() && p in fs.tree.nodes
    modifies fs`tree, fs`writes
    ensures fs.Inv() && OnlyNode(old(fs.tree), fs.tree, p) && err in {Ok, Io, Inval}
    ensures fs.faults || err !in {Io, Inval}
    ensures fs.tree.nodes[p] == old(fs.tree).nodes[p].(enable := fs.tree.nodes[p].enable)
    ensures err == Ok ==> fs.tree.nodes[p].enable == on
    ensures old(fs.tree).nodes[p].enable == on ==> fs.tree == old(fs.tree) && fs.writes == old(fs.writes)
  {
    err := fs.Readable();
    if err != Ok { return; }
    if fs.tree.nodes[p].enable != on {
      err := fs.OnNode(p, SetEnable(on));
    }
  }

  /** The contents of a TPG that exists, in dependency order (lio/iscsi.go:102-134). */
  method FillTpg(fs: Configfs, p: Path, g: TPG, names: map<string, Key>, ghost goal: Config) returns (err: Err)
    requires fs.Inv() && p in fs.tree.nodes && NamesLive(names, fs.tree.objs) && TpgFits(g, p, names, goal)
    modifies fs`tree, fs`writes, fs`repoints
    ensures fs.Inv() && OnlyNode(old(fs.tree), fs.tree, p)
    ensures err in {Ok, Io, Inval, Dependency, Refused}
    ensures TpgWired(g, old(fs.tree).nodes[p]) ==> fs.faults || err !in {Io, Inval}
    ensures Resolved(g.luns, names) ==> err != Dependency
    ensures Ready(old(fs.tree).nodes[p].portals, g.portals) ==> err != Refused
    ensures LunsToward(old(fs.tree).nodes[p].luns, fs.tree.nodes[p].luns, p, goal)
    ensures err == Ok ==> Resolved(g.luns, names)
    ensures err == Ok ==> fs.tree.nodes[p] == EnsureNode(old(fs.tree).nodes[p], g, names)
    ensures NodeHeld(old(fs.tree).nodes[p], g, names) ==> fs.tree == old(fs.tree) && fs.writes == old(fs.writes)
    ensures LunsClear(old(fs.tree).nodes[p].luns, g.luns, names) ==> fs.repoints == old(fs.repoints)
    ensures Counted(old(fs.tree).nodes, fs.tree.nodes, old(fs.repoints), fs.repoints)
    ensures old(fs.tree).nodes[p].enable == g.enable ==> fs.tree.nodes[p].enable == g.enable
  {
    err := FillLuns(fs, p, g, names, goal);
    ghost var n1, r1 := fs.tree.nodes, fs.repoints;
    if err != Ok { return; }
    FilledWired(old(fs.tree).nodes[p], n1[p], g, names);
    err := FillAcls(fs, p, g);
    SameLunsCounted(n1, fs.tree.nodes, p, r1);
    CountedTrans(old(fs.tree).nodes, n1, fs.tree.nodes, old(fs.repoints), r1, r1);
  }

  /** Portals, then LUNs. */
  method FillLuns(fs: Configfs, p: Path, g: TPG, names: map<string, Key>, ghost goal: Config) returns (err: Err)
    requires fs.Inv() && p in fs.tree.nodes && NamesLive(names, fs.tree.objs) && TpgFits(g, p, names, goal)
    modifies fs`tree, fs`writes, fs`repoints
    ensures fs.Inv() && OnlyNode(old(fs.tree), fs.tree, p) && err in {Ok, Io, Inval, Dependency, Refused}
    ensures fs.faults || err !in {Io, Inval}
    ensures fs.tree.nodes[p] == old(fs.tree).nodes[p].(portals := fs.tree.nodes[p].portals, luns := fs.tree.nodes[p].luns)
    ensures Resolved(g.luns, names) ==> err != Dependency
    ensures Ready(old(fs.tree).nodes[p].portals, g.portals) ==> err != Refused
    ensures LunsToward(old(fs.tree).nodes[p].luns, fs.tree.nodes[p].luns, p, goal)
    ensures err == Ok ==> Resolved(g.luns, names)
    ensures err == Ok ==> fs.tree.nodes[p].portals == old(fs.tree).nodes[p].portals + (set q | q in g.portals)
    ensures err == Ok ==> fs.tree.nodes[p].luns == ApplyLuns(old(fs.tree).nodes[p].luns, g.luns, names)
    ensures (forall q | q in g.portals :: q in old(fs.tree).nodes[p].portals) && LunsHeld(old(fs.tree).nodes[p].luns, g.luns, names) ==>
              fs.tree == old(fs.tree) && fs.writes == old(fs.writes)
    ensures LunsClear(old(fs.tree).nodes[p].luns, g.luns, names) ==> fs.repoints == old(fs.repoints)
    ensures Counted(old(fs.tree).nodes, fs.tree.nodes, old(fs.repoints), fs.repoints)
  {
    err := EnsurePortals(fs, p, g.portals);
    ghost var n1 := fs.tree.nodes;
    SameLunsCounted(old(fs.tree).nodes, n1, p, fs.repoints);
    if err != Ok { return; }
    err := EnsureLuns(fs, p, g.luns, names, goal);
    CountedTrans(old(fs.tree).nodes, n1, fs.tree.nodes, old(fs.repoints), old(fs.repoints), fs.repoints);
  }

  lemma FilledWired(n0: Node, n1: Node, g: TPG, names: map<string, Key>)
    requires Resolved(g.luns, names) && n1.luns == ApplyLuns(n0.luns, g.luns, names)
    ensures TpgWired(g, n0) ==> AclsWired(g.acls, n1.luns.Keys)
  {
    ApplyLunsKeys(n0.luns, g.luns, names);
  }

  lemma {:induction false} ApplyLunsKeys(base: map<int, Option<Key>>, luns: seq<LUN>, names: map<string, Key>)
    requires Resolved(luns, names)
    ensures ApplyLuns(base, luns, names).Keys == base.Keys + LunIndices(luns)
  {
    if luns != [] {
      var init, last := luns[..|luns| - 1], luns[|luns| - 1];
      assert luns == init + [last];
      ApplyLunsKeys(base, init, names);
      assert LunIndices(luns) == LunIndices(init) + {last.index};
    }
  }

  lemma SameLunsCounted(n0: map<Path, Node>, n1: map<Path, Node>, p: Path, r: nat)
    requires OnlyPath(n0, n1, p) && NodeAt(n1, p).luns == NodeAt(n0, p).luns
    ensures Counted(n0, n1, r, r)
  {
  }

  method FillAcls(fs: Configfs, p: Path, g: TPG) returns (err: Err)
    requires fs.Inv() && p in fs.tree.nodes
    modifies fs`tree, fs`writes
    ensures fs.Inv() && OnlyNode(old(fs.tree), fs.tree, p) && err in {Ok, Io, Inval}
    ensures AclsWired(g.acls, old(fs.tree).nodes[p].luns.Keys) ==> fs.faults || err !in {Io, Inval}
    ensures fs.tree.nodes[p].portals == old(fs.tree).nodes[p].portals && fs.tree.nodes[p].luns == old(fs.tree).nodes[p].luns
    ensures err == Ok ==> fs.tree.nodes[p].acls == ApplyAcls(old(fs.tree).nodes[p].acls, g.acls)
    ensures err == Ok ==> fs.tree.nodes[p].enable == g.enable
    ensures AclsHeld(old(fs.tree).nodes[p].acls, g.acls) && old(fs.tree).nodes[p].enable == g.enable ==>
              fs.tree == old(fs.tree) && fs.writes == old(fs.writes)
    ensures old(fs.tree).nodes[p].enable == g.enable ==> fs.tree.nodes[p].enable == g.enable
  {
    err := EnsureAcls(fs, p, g.acls);
    if err != Ok { return; }
    err := EnsureEnable(fs, p, g.enable);
  }

  /** ensureTPG (lio/iscsi.go:39-136), leaving the attrib keys aside. */
  method EnsureTpg(fs: Configfs, p: Path, g: TPG, names: map<string, Key>, ghost goal: Config) returns (err: Err)
    requires fs.Inv() && p.iqn in fs.tree.targets && NamesLive(names, fs.tree.objs) && TpgFits(g, p, names, goal)
    modifies fs`tree, fs`writes, fs`repoints, fs`owed
    ensures fs.Inv() && fs.owed == old(fs.owed) && err in {Ok, Io, Inval, Dependency, Refused}
    ensures TpgWired(g, NodeAt(old(fs.tree).nodes, p)) ==> fs.faults || err !in {Io, Inval}
    ensures fs.tree.objs == old(fs.tree).objs && fs.tree.targets == old(fs.tree).targets
    ensures OnlyPath(old(fs.tree).nodes, fs.tree.nodes, p)
    ensures Toward(old(fs.tree).nodes, fs.tree.nodes, goal)
    ensures Resolved(g.luns, names) ==> err != Dependency
    ensures Ready(NodeAt(old(fs.tree).nodes, p).portals, g.portals) ==> err != Refused
    ensures err == Ok ==> Resolved(g.luns, names) && p in fs.tree.nodes
    ensures err == Ok ==> fs.tree.nodes[p] == EnsureNode(NodeAt(old(fs.tree).nodes, p), g, names)
    ensures p in old(fs.tree).nodes && NodeHeld(old(fs.tree).nodes[p], g, names) ==>
              fs.tree == old(fs.tree) && fs.writes == old(fs.writes)
    ensures LunsClear(NodeAt(old(fs.tree).nodes, p).luns, g.luns, names) ==> fs.repoints == old(fs.repoints)
    ensures Counted(old(fs.tree).nodes, fs.tree.nodes, old(fs.repoints), fs.repoints)
    ensures p in old(fs.tree).nodes && old(fs.tree).nodes[p].enable == g.enable ==> SameEnables(old(fs.tree).nodes, fs.tree.nodes)
  {
    err := MakeTpg(fs, p);
    ghost var n1 := fs.tree.nodes;
    SameLunsCounted(old(fs.tree).nodes, n1, p, fs.repoints);
    if err == Ok {
      err := FillTpg(fs, p, g, names, goal);
      CountedTrans(old(fs.tree).nodes, n1, fs.tree.nodes, old(fs.repoints), old(fs.repoints), fs.repoints);
    }
    NodeToward(old(fs.tree).nodes, fs.tree.nodes, p, goal);
  }

  // ----- the TPGs of one target -----

  ghost predicate TpgsResolved(gs: seq<TPG>, names: map<string, Key>) {
    forall g | g in gs :: Resolved(g.luns, names)
  }

  ghost predicate TpgsFit(gs: seq<TPG>, iqn: string, names: map<string, Key>, goal: Config) {
    && (forall g | g in gs :: TpgFits(g, Path(iqn, g.tag), names, goal))
    && (forall i, j :: 0 <= i < j < |gs| ==> gs[i].tag != gs[j].tag)
  }

  ghost predicate TpgsReady(nodes: map<Path, Node>, iqn: string, gs: seq<TPG>) {
    forall g | g in gs :: Ready(NodeAt(nodes, Path(iqn, g.tag)).portals, g.portals)
  }

  ghost predicate TpgsWired(nodes: map<Path, Node>, iqn: string, gs: seq<TPG>) {
    forall g | g in gs :: TpgWired(g, NodeAt(nodes, Path(iqn, g.tag)))
  }

  ghost predicate TpgsHeld(nodes: map<Path, Node>, iqn: string, gs: seq<TPG>, names: map<string, Key>) {
    forall g | g in gs :: Path(iqn, g.tag) in nodes && NodeHeld(nodes[Path(iqn, g.tag)], g, names)
  }

  ghost predicate TpgsClear(nodes: map<Path, Node>, iqn: string, gs: seq<TPG>, names: map<string, Key>) {
    forall g | g in gs :: LunsClear(NodeAt(nodes, Path(iqn, g.tag)).luns, g.luns, names)
  }

  /** Nothing of another target changed. */
  ghost predicate OnlyIqn(n0: map<Path, Node>, n1: map<Path, Node>, iqn: string) {
    && n0.Keys <= n1.Keys
    && forall q | q in n1 && q.iqn != iqn :: q in n0 && n1[q] == n0[q]
  }

  lemma TpgsNext(n0: map<Path, Node>, n1: map<Path, Node>, n2: map<Path, Node>, iqn: string, gs: seq<TPG>, i: nat, names: map<string, Key>)
    requires i < |gs| && forall i, j :: 0 <= i < j < |gs| ==> gs[i].tag != gs[j].tag
    requires TpgsResolved(gs[..i], names) && Resolved(gs[i].luns, names)
    requires TpgsApplied(n0, n1, iqn, gs[..i], names) && OnlyPath(n1, n2, Path(iqn, gs[i].tag))
    requires Path(iqn, gs[i].tag) in n2 && n2[Path(iqn, gs[i].tag)] == EnsureNode(NodeAt(n1, Path(iqn, gs[i].tag)), gs[i], names)
    ensures TpgsResolved(gs[..i + 1], names)
    ensures TpgsApplied(n0, n2, iqn, gs[..i + 1], names)
  {
    var p, now, next := Path(iqn, gs[i].tag), gs[..i], gs[..i + 1];
    assert next == now + [gs[i]];
    NotYet(n0, n1, iqn, gs, i, names);
    forall g | g in next
      ensures Resolved(g.luns, names) && Path(iqn, g.tag) in n2
      ensures n2[Path(iqn, g.tag)] == EnsureNode(NodeAt(n0, Path(iqn, g.tag)), g, names)
    {
      if g in now {
        assert g.tag != gs[i].tag;
      }
    }
  }

  lemma NotYet(n0: map<Path, Node>, n1: map<Path, Node>, iqn: string, gs: seq<TPG>, i: nat, names: map<string, Key>)
    requires i < |gs| && forall i, j :: 0 <= i < j < |gs| ==> gs[i].tag != gs[j].tag
    requires TpgsResolved(gs[..i], names) && TpgsApplied(n0, n1, iqn, gs[..i], names)
    ensures Path(iqn, gs[i].tag) in n1 <==> Path(iqn, gs[i].tag) in n0
    ensures NodeAt(n1, Path(iqn, gs[i].tag)) == NodeAt(n0, Path(iqn, gs[i].tag))
  {
  }

  /** The first TPGs, gs of them, have been seen to. */
  ghost predicate TpgsUnderway(t0: Tree, t: Tree, iqn: string, gs: seq<TPG>, names: map<string, Key>, goal: Config) {
    TpgsSeenTo(t0, t, iqn, gs, names, goal) == true // carried whole, not clause by clause
  }

  ghost predicate TpgsSeenTo(t0: Tree, t: Tree, iqn: string, gs: seq<TPG>, names: map<string, Key>, goal: Config) {
    && t.objs == t0.objs && t.targets == t0.targets
    && TpgsResolved(gs, names) && TpgsApplied(t0.nodes, t.nodes, iqn, gs, names)
    && OnlyIqn(t0.nodes, t.nodes, iqn) && Toward(t0.nodes, t.nodes, goal)
  }

  lemma TpgEnables(n0: map<Path, Node>, n1: map<Path, Node>, n2: map<Path, Node>, iqn: string, gs: seq<TPG>, g: TPG)
    requires g in gs
    requires Path(iqn, g.tag) in n1 && n1[Path(iqn, g.tag)].enable == g.enable ==> SameEnables(n1, n2)
    ensures EnablesAgree(n0, iqn, gs) && SameEnables(n0, n1) ==> SameEnables(n0, n2)
  {
  }

  method EnsureNextTpg(fs: Configfs, iqn: string, gs: seq<TPG>, i: nat, names: map<string, Key>, ghost goal: Config, ghost t0: Tree)
    returns (err: Err)
    requires i < |gs| && fs.Inv() && iqn in fs.tree.targets && NamesLive(names, fs.tree.objs) && TpgsFit(gs, iqn, names, goal)
    requires TpgsUnderway(t0, fs.tree, iqn, gs[..i], names, goal)
    modifies fs`tree, fs`writes, fs`repoints, fs`owed
    ensures fs.Inv() && fs.owed == old(fs.owed) && err in {Ok, Io, Inval, Dependency, Refused}
    ensures TpgsWired(t0.nodes, iqn, gs) ==> fs.faults || err !in {Io, Inval}
    ensures fs.tree.objs == t0.objs && fs.tree.targets == t0.targets
    ensures OnlyIqn(t0.nodes, fs.tree.nodes, iqn) && Toward(t0.nodes, fs.tree.nodes, goal)
    ensures err == Ok ==> TpgsUnderway(t0, fs.tree, iqn, gs[..i + 1], names, goal)
    ensures TpgsResolved(gs, names) ==> err != Dependency
    ensures TpgsReady(t0.nodes, iqn, gs) ==> err != Refused
    ensures TpgsHeld(t0.nodes, iqn, gs, names) && old(fs.tree) == t0 ==> fs.tree == t0 && fs.writes == old(fs.writes)
    ensures TpgsClear(t0.nodes, iqn, gs, names) ==> fs.repoints == old(fs.repoints)
    ensures Counted(old(fs.tree).nodes, fs.tree.nodes, old(fs.repoints), fs.repoints)
    ensures EnablesAgree(t0.nodes, iqn, gs) && SameEnables(t0.nodes, old(fs.tree).nodes) ==> SameEnables(t0.nodes, fs.tree.nodes)
  {
    assert gs[i] in gs;
    ghost var n0, n1 := t0.nodes, fs.tree.nodes;
    NotYet(n0, n1, iqn, gs, i, names);
    err := EnsureTpg(fs, Path(iqn, gs[i].tag), gs[i], names, goal);
    TowardTrans(n0, n1, fs.tree.nodes, goal);
    TpgEnables(n0, n1, fs.tree.nodes, iqn, gs, gs[i]);
    if err == Ok {
      TpgsNext(n0, n1, fs.tree.nodes, iqn, gs, i, names);
    }
  }

  method EnsureTpgs(fs: Configfs, iqn: string, gs: seq<TPG>, names: map<string, Key>, ghost goal: Config) returns (err: Err)
    requires fs.Inv() && iqn in fs.tree.targets && NamesLive(names, fs.tree.objs) && TpgsFit(gs, iqn, names, goal)
    modifies fs`tree, fs`writes, fs`repoints, fs`owed
    ensures fs.Inv() && fs.owed == old(fs.owed) && err in {Ok, Io, Inval, Dependency, Refused}
    ensures TpgsWired(old(fs.tree).nodes, iqn, gs) ==> fs.faults || err !in {Io, Inval}
    ensures fs.tree.objs == old(fs.tree).objs && fs.tree.targets == old(fs.tree).targets
    ensures OnlyIqn(old(fs.tree).nodes, fs.tree.nodes, iqn) && Toward(old(fs.tree).nodes, fs.tree.nodes, goal)
    ensures TpgsResolved(gs, names) ==> err != Dependency
    ensures TpgsReady(old(fs.tree).nodes, iqn, gs) ==> err != Refused
    ensures err == Ok ==> TpgsResolved(gs, names) && TpgsApplied(old(fs.tree).nodes, fs.tree.nodes, iqn, gs, names)
    ensures TpgsHeld(old(fs.tree).nodes, iqn, gs, names) ==> fs.tree == old(fs.tree) && fs.writes == old(fs.writes)
    ensures TpgsClear(old(fs.tree).nodes, iqn, gs, names) ==> fs.repoints == old(fs.repoints)
    ensures Counted(old(fs.tree).nodes, fs.tree.nodes, old(fs.repoints), fs.repoints)
    ensures EnablesAgree(old(fs.tree).nodes, iqn, gs) ==> SameEnables(old(fs.tree).nodes, fs.tree.nodes)
  {
    ghost var t0 := fs.tree;
    for i := 0 to |gs|
      invariant fs.Inv() && fs.owed == old(fs.owed) && TpgsUnderway(t0, fs.tree, iqn, gs[..i], names, goal)
      invariant TpgsHeld(t0.nodes, iqn, gs, names) ==> fs.tree == t0 && fs.writes == old(fs.writes)
      invariant TpgsClear(t0.nodes, iqn, gs, names) ==> fs.repoints == old(fs.repoints)
      invariant Counted(t0.nodes, fs.tree.nodes, old(fs.repoints), fs.repoints)
      invariant EnablesAgree(t0.nodes, iqn, gs) ==> SameEnables(t0.nodes, fs.tree.nodes)
    {
      ghost var n1, r1 := fs.tree.nodes, fs.repoints;
      err := EnsureNextTpg(fs, iqn, gs, i, names, goal, t0);
      CountedTrans(t0.nodes, n1, fs.tree.nodes, old(fs.repoints), r1, fs.repoints);
      if err != Ok { return; }
    }
    assert gs[..|gs|] == gs;
    err := Ok;
  }

  // ----- targets -----

  ghost predicate TargetsResolved(ts: seq<Target>, names: map<string, Key>) {
    forall t, g | t in ts && g in t.tpgs :: Resolved(g.luns, names)
  }

  ghost predicate TargetsFit(ts: seq<Target>, names: map<string, Key>, goal: Config) {
    && (forall t | t in ts :: TpgsFit(t.tpgs, t.iqn, names, goal))
    && (forall i, j :: 0 <= i < j < |ts| ==> ts[i].iqn != ts[j].iqn)
  }

  ghost predicate TargetsReady(nodes: map<Path, Node>, ts: seq<Target>) {
    forall t | t in ts :: TpgsReady(nodes, t.iqn, t.tpgs)
  }

  ghost predicate TargetsWired(nodes: map<Path, Node>, ts: seq<Target>) {
    forall t | t in ts :: TpgsWired(nodes, t.iqn, t.tpgs)
  }

  ghost predicate TargetsHeld(t: Tree, ts: seq<Target>, names: map<string, Key>) {
    forall tg | tg in ts :: tg.iqn in t.targets && TpgsHeld(t.nodes, tg.iqn, tg.tpgs, names)
  }

  ghost predicate TargetsClear(nodes: map<Path, Node>, ts: seq<Target>, names: map<string, Key>) {
    forall t | t in ts :: TpgsClear(nodes, t.iqn, t.tpgs, names)
  }

  ghost predicate TargetsEnabled(nodes: map<Path, Node>, ts: seq<Target>) {
    forall t | t in ts :: EnablesAgree(nodes, t.iqn, t.tpgs)
  }

  /** ensureTarget (lio/iscsi.go:11-35). */
  method EnsureTarget(fs: Configfs, t: Target, names: map<string, Key>, ghost goal: Config) returns (err: Err)
    requires fs.Inv() && NamesLive(names, fs.tree.objs) && TpgsFit(t.tpgs, t.iqn, names, goal)
    modifies fs`tree, fs`writes, fs`repoints, fs`owed
    ensures fs.Inv() && fs.owed == old(fs.owed) && err in {Ok, Io, Inval, Dependency, Refused}
    ensures TpgsWired(old(fs.tree).nodes, t.iqn, t.tpgs) ==> fs.faults || err !in {Io, Inval}
    ensures fs.tree.objs == old(fs.tree).objs
    ensures old(fs.tree).targets <= fs.tree.targets <= old(fs.tree).targets + {t.iqn}
    ensures OnlyIqn(old(fs.tree).nodes, fs.tree.nodes, t.iqn) && Toward(old(fs.tree).nodes, fs.tree.nodes, goal)
    ensures TpgsResolved(t.tpgs, names) ==> err != Dependency
    ensures TpgsReady(old(fs.tree).nodes, t.iqn, t.tpgs) ==> err != Refused
    ensures err == Ok ==> fs.tree.targets == old(fs.tree).targets + {t.iqn} && TpgsResolved(t.tpgs, names)
    ensures err == Ok ==> TpgsApplied(old(fs.tree).nodes, fs.tree.nodes, t.iqn, t.tpgs, names)
    ensures t.iqn in old(fs.tree).targets && TpgsHeld(old(fs.tree).nodes, t.iqn, t.tpgs, names) ==>
              fs.tree == old(fs.tree) && fs.writes == old(fs.writes)
    ensures TpgsClear(old(fs.tree).nodes, t.iqn, t.tpgs, names) ==> fs.repoints == old(fs.repoints)
    ensures Counted(old(fs.tree).nodes, fs.tree.nodes, old(fs.repoints), fs.repoints)
    ensures EnablesAgree(old(fs.tree).nodes, t.iqn, t.tpgs) ==> SameEnables(old(fs.tree).nodes, fs.tree.nodes)
  {
    err := MakeTarget(fs, t.iqn);
    if err != Ok { return; }
    err := EnsureTpgs(fs, t.iqn, t.tpgs, names, goal);
  }

  method MakeTarget(fs: Configfs, iqn: string) returns (err: Err)
    requires fs.Inv()
    modifies fs`tree, fs`writes, fs`owed
    ensures fs.Inv() && fs.owed == old(fs.owed) && err in {Ok, Io, Inval}
    ensures fs.faults || err !in {Io, Inval}
    ensures fs.tree.objs == old(fs.tree).objs && fs.tree.nodes == old(fs.tree).nodes
    ensures fs.tree.targets == if err == Ok then old(fs.tree).targets + {iqn} else old(fs.tree).targets
    ensures iqn in old(fs.tree).targets ==> fs.tree == old(fs.tree) && fs.writes == old(fs.writes)
  {
    err := fs.Readable();
    if err == Ok && iqn !in fs.tree.targets {
      err := fs.OnDir(MkTarget(iqn));
    }
  }

  lemma TargetsNextAt(n0: map<Path, Node>, n1: map<Path, Node>, n2: map<Path, Node>, ts: seq<Target>, i: nat, names: map<string, Key>, t: Target, g: TPG)
    requires i < |ts| && forall i, j :: 0 <= i < j < |ts| ==> ts[i].iqn != ts[j].iqn
    requires TargetsResolved(ts[..i], names) && TpgsResolved(ts[i].tpgs, names)
    requires TargetsApplied(n0, n1, ts[..i], names)
    requires OnlyIqn(n1, n2, ts[i].iqn) && TpgsApplied(n1, n2, ts[i].iqn, ts[i].tpgs, names)
    requires (t in ts[..i] || t == ts[i]) && g in t.tpgs
    ensures Resolved(g.luns, names) && Path(t.iqn, g.tag) in n2
    ensures n2[Path(t.iqn, g.tag)] == EnsureNode(NodeAt(n0, Path(t.iqn, g.tag)), g, names)
  {
    if t == ts[i] {
      TargetNotYet(n0, n1, ts, i, names, g.tag);
    } else {
      assert t.iqn != ts[i].iqn;
    }
  }

  lemma TargetsNext(n0: map<Path, Node>, n1: map<Path, Node>, n2: map<Path, Node>, ts: seq<Target>, i: nat, names: map<string, Key>)
    requires i < |ts| && forall i, j :: 0 <= i < j < |ts| ==> ts[i].iqn != ts[j].iqn
    requires TargetsResolved(ts[..i], names) && TpgsResolved(ts[i].tpgs, names)
    requires TargetsApplied(n0, n1, ts[..i], names)
    requires OnlyIqn(n1, n2, ts[i].iqn) && TpgsApplied(n1, n2, ts[i].iqn, ts[i].tpgs, names)
    ensures TargetsResolved(ts[..i + 1], names)
    ensures TargetsApplied(n0, n2, ts[..i + 1], names)
  {
    assert ts[..i + 1] == ts[..i] + [ts[i]];
    forall t, g | t in ts[..i + 1] && g in t.tpgs
      ensures Resolved(g.luns, names) && Path(t.iqn, g.tag) in n2
      ensures n2[Path(t.iqn, g.tag)] == EnsureNode(NodeAt(n0, Path(t.iqn, g.tag)), g, names)
    {
      TargetsNextAt(n0, n1, n2, ts, i, names, t, g);
    }
    TargetsNextElsewhere(n0, n1, n2, ts, i, names);
  }

  lemma TargetsNextElsewhere(n0: map<Path, Node>, n1: map<Path, Node>, n2: map<Path, Node>, ts: seq<Target>, i: nat, names: map<string, Key>)
    requires i < |ts| && TargetsResolved(ts[..i], names) && TpgsResolved(ts[i].tpgs, names)
    requires TargetsApplied(n0, n1, ts[..i], names) && TpgsApplied(n1, n2, ts[i].iqn, ts[i].tpgs, names)
    ensures forall p | p in n2 && p !in PathsOf(ts[..i + 1]) :: p in n0 && n2[p] == n0[p]
  {
    var now, next := ts[..i], ts[..i + 1];
    assert next == now + [ts[i]];
    forall p | p in n2 && p !in PathsOf(next)
      ensures p in n0 && n2[p] == n0[p]
    {
      assert ts[i] in next;
      assert p in n1 && n2[p] == n1[p];
      assert p !in PathsOf(now);
    }
  }

  lemma TargetNotYet(n0: map<Path, Node>, n1: map<Path, Node>, ts: seq<Target>, i: nat, names: map<string, Key>, tag: int)
    requires i < |ts| && forall i, j :: 0 <= i < j < |ts| ==> ts[i].iqn != ts[j].iqn
    requires TargetsResolved(ts[..i], names) && TargetsApplied(n0, n1, ts[..i], names)
    ensures Path(ts[i].iqn, tag) in n1 <==> Path(ts[i].iqn, tag) in n0
    ensures NodeAt(n1, Path(ts[i].iqn, tag)) == NodeAt(n0, Path(ts[i].iqn, tag))
  {
    assert Path(ts[i].iqn, tag) !in PathsOf(ts[..i]);
  }

  lemma TargetStillSo(t0: Tree, t1: Tree, ts: seq<Target>, i: nat, names: map<string, Key>)
    requires i < |ts| && forall i, j :: 0 <= i < j < |ts| ==> ts[i].iqn != ts[j].iqn
    requires TargetsResolved(ts[..i], names) && TargetsApplied(t0.nodes, t1.nodes, ts[..i], names)
    ensures TargetsReady(t0.nodes, ts) ==> TpgsReady(t1.nodes, ts[i].iqn, ts[i].tpgs)
    ensures TargetsWired(t0.nodes, ts) ==> TpgsWired(t1.nodes, ts[i].iqn, ts[i].tpgs)
    ensures TargetsClear(t0.nodes, ts, names) ==> TpgsClear(t1.nodes, ts[i].iqn, ts[i].tpgs, names)
  {
    assert ts[i] in ts;
    forall g | g in ts[i].tpgs
      ensures NodeAt(t1.nodes, Path(ts[i].iqn, g.tag)) == NodeAt(t0.nodes, Path(ts[i].iqn, g.tag))
    {
      TargetNotYet(t0.nodes, t1.nodes, ts, i, names, g.tag);
    }
  }

  lemma IqnsNext(base: set<string>, ts: seq<Target>, i: nat)
    requires i < |ts|
    ensures base + Iqns(ts[..i + 1]) == base + Iqns(ts[..i]) + {ts[i].iqn}
  {
    assert ts[..i + 1] == ts[..i] + [ts[i]];
  }

  lemma EnablesStep(n0: map<Path, Node>, n1: map<Path, Node>, n2: map<Path, Node>, ts: seq<Target>, i: nat)
    requires i < |ts| && (EnablesAgree(n1, ts[i].iqn, ts[i].tpgs) ==> SameEnables(n1, n2))
    ensures TargetsEnabled(n0, ts) && SameEnables(n0, n1) ==> SameEnables(n0, n2)
  {
    assert ts[i] in ts;
  }

  /** The first i targets have been seen to. */
  ghost predicate Underway(t0: Tree, t: Tree, ts: seq<Target>, i: nat, names: map<string, Key>, goal: Config)
    requires i <= |ts|
  {
    SeenTo(t0, t, ts[..i], names, goal) == true // carried whole, not clause by clause
  }

  ghost predicate SeenTo(t0: Tree, t: Tree, ts: seq<Target>, names: map<string, Key>, goal: Config) {
    && t.objs == t0.objs && t.targets == t0.targets + Iqns(ts)
    && TargetsResolved(ts, names) && TargetsApplied(t0.nodes, t.nodes, ts, names)
    && Toward(t0.nodes, t.nodes, goal)
  }

  method EnsureNextTarget(fs: Configfs, ts: seq<Target>, i: nat, names: map<string, Key>, ghost goal: Config, ghost t0: Tree)
    returns (err: Err)
    requires i < |ts| && fs.Inv() && NamesLive(names, fs.tree.objs) && TargetsFit(ts, names, goal)
    requires Underway(t0, fs.tree, ts, i, names, goal)
    modifies fs`tree, fs`writes, fs`repoints, fs`owed
    ensures fs.Inv() && fs.owed == old(fs.owed) && err in {Ok, Io, Inval, Dependency, Refused}
    ensures TargetsWired(t0.nodes, ts) ==> fs.faults || err !in {Io, Inval}
    ensures fs.tree.objs == t0.objs && Toward(t0.nodes, fs.tree.nodes, goal)
    ensures err == Ok ==> Underway(t0, fs.tree, ts, i + 1, names, goal)
    ensures TargetsResolved(ts, names) ==> err != Dependency
    ensures TargetsReady(t0.nodes, ts) ==> err != Refused
    ensures TargetsHeld(t0, ts, names) && old(fs.tree) == t0 ==> fs.tree == t0 && fs.writes == old(fs.writes)
    ensures TargetsClear(t0.nodes, ts, names) ==> fs.repoints == old(fs.repoints)
    ensures Counted(old(fs.tree).nodes, fs.tree.nodes, old(fs.repoints), fs.repoints)
    ensures TargetsEnabled(t0.nodes, ts) && SameEnables(t0.nodes, old(fs.tree).nodes) ==> SameEnables(t0.nodes, fs.tree.nodes)
  {
    assert ts[i] in ts;
    ghost var t1 := fs.tree;
    TargetStillSo(t0, t1, ts, i, names);
    err := EnsureTarget(fs, ts[i], names, goal);
    TowardTrans(t0.nodes, t1.nodes, fs.tree.nodes, goal);
    EnablesStep(t0.nodes, t1.nodes, fs.tree.nodes, ts, i);
    if err == Ok {
      UnderwayNext(t0, t1, fs.tree, ts, i, names, goal);
    }
  }

  lemma UnderwayNext(t0: Tree, t1: Tree, t2: Tree, ts: seq<Target>, i: nat, names: map<string, Key>, goal: Config)
    requires i < |ts| && forall i, j :: 0 <= i < j < |ts| ==> ts[i].iqn != ts[j].iqn
    requires Underway(t0, t1, ts, i, names, goal) && TpgsResolved(ts[i].tpgs, names)
    requires t2.objs == t1.objs && t2.targets == t1.targets + {ts[i].iqn} && OnlyIqn(t1.nodes, t2.nodes, ts[i].iqn)
    requires TpgsApplied(t1.nodes, t2.nodes, ts[i].iqn, ts[i].tpgs, names) && Toward(t0.nodes, t2.nodes, goal)
    ensures Underway(t0, t2, ts, i + 1, names, goal)
  {
    TargetsNext(t0.nodes, t1.nodes, t2.nodes, ts, i, names);
    IqnsNext(t0.targets, ts, i);
  }

  method EnsureTargets(fs: Configfs, ts: seq<Target>, names: map<string, Key>, ghost goal: Config) returns (err: Err)
    requires fs.Inv() && NamesLive(names, fs.tree.objs) && TargetsFit(ts, names, goal)
    modifies fs`tree, fs`writes, fs`repoints, fs`owed
    ensures fs.Inv() && fs.owed == old(fs.owed) && err in {Ok, Io, Inval, Dependency, Refused}
    ensures TargetsWired(old(fs.tree).nodes, ts) ==> fs.faults || err !in {Io, Inval}
    ensures fs.tree.objs == old(fs.tree).objs && Toward(old(fs.tree).nodes, fs.tree.nodes, goal)
    ensures TargetsResolved(ts, names) ==> err != Dependency
    ensures TargetsReady(old(fs.tree).nodes, ts) ==> err != Refused
    ensures err == Ok ==> fs.tree.targets == old(fs.tree).targets + Iqns(ts)
    ensures err == Ok ==> TargetsResolved(ts, names) && TargetsApplied(old(fs.tree).nodes, fs.tree.nodes, ts, names)
    ensures TargetsHeld(old(fs.tree), ts, names) ==> fs.tree == old(fs.tree) && fs.writes == old(fs.writes)
    ensures TargetsClear(old(fs.tree).nodes, ts, names) ==> fs.repoints == old(fs.repoints)
    ensures Counted(old(fs.tree).nodes, fs.tree.nodes, old(fs.repoints), fs.repoints)
    ensures TargetsEnabled(old(fs.tree).nodes, ts) ==> SameEnables(old(fs.tree).nodes, fs.tree.nodes)
  {
    ghost var t0 := fs.tree;
    for i := 0 to |ts|
      invariant fs.Inv() && fs.owed == old(fs.owed) && Underway(t0, fs.tree, ts, i, names, goal)
      invariant TargetsHeld(t0, ts, names) ==> fs.tree == t0 && fs.writes == old(fs.writes)
      invariant TargetsClear(t0.nodes, ts, names) ==> fs.repoints == old(fs.repoints)
      invariant Counted(t0.nodes, fs.tree.nodes, old(fs.repoints), fs.repoints)
      invariant TargetsEnabled(t0.nodes, ts) ==> SameEnables(t0.nodes, fs.tree.nodes)
    {
      ghost var n1, r1 := fs.tree.nodes, fs.repoints;
      err := EnsureNextTarget(fs, ts, i, names, goal, t0);
      CountedTrans(t0.nodes, n1, fs.tree.nodes, old(fs.repoints), r1, fs.repoints);
      if err != Ok { return; }
    }
    assert ts[..|ts|] == ts;
    err := Ok;
  }

  // ----- backstores -----

  ghost predicate BackstoresDone(objs: map<Key, Obj>, bs: seq<Backstore>, drift: seq<Drift>) {
    forall b | b in bs :: b.key in objs && Done(b, objs[b.key], drift)
  }

  ghost predicate BackstoresSettled(objs: map<Key, Obj>, bs: seq<Backstore>) {
    forall b | b in bs :: b.key in objs && Settled(b, objs[b.key])
  }

  ghost predicate Named(drift: seq<Drift>, names: set<string>) {
    forall d | d in drift :: d.name in names && d.live.Some?
  }

  /** Objects are added among ks or rewritten there; an enabled one stays enabled. */
  ghost predicate OnlyObjs(t0: Tree, t1: Tree, ks: set<Key>) {
    && t1.targets == t0.targets && t1.nodes == t0.nodes
    && t0.objs.Keys <= t1.objs.Keys <= t0.objs.Keys + ks
    && (forall k | k in t0.objs && k !in ks :: t1.objs[k] == t0.objs[k])
    && (forall k | k in t0.objs && t0.objs[k].enabled :: t1.objs[k].enabled)
  }

  lemma DoneKeeps(b: Backstore, o: Obj, drift: seq<Drift>, more: seq<Drift>)
    requires Done(b, o, drift) && forall d | d in more :: d.name != b.key.name
    ensures Done(b, o, drift + more)
  {
    PatchKeeps(b.key.name, b.attrs, drift, more);
  }

  lemma DoneAfter(b: Backstore, o: Obj, before: seq<Drift>, drift: seq<Drift>)
    requires Done(b, o, drift) && forall d | d in before :: d.name != b.key.name
    ensures Done(b, o, before + drift)
  {
    PatchSkips(b.key.name, b.attrs, before, drift);
  }

  lemma BackstoresNext(objs0: map<Key, Obj>, objs: map<Key, Obj>, bs: seq<Backstore>, i: nat, before: seq<Drift>, more: seq<Drift>)
    requires i < |bs| && ValidBackstoreNames(bs)
    requires BackstoresDone(objs0, bs[..i], before) && Named(before, Names(bs[..i]))
    requires forall k | k in objs0 && k != bs[i].key :: k in objs && objs[k] == objs0[k]
    requires bs[i].key in objs && Done(bs[i], objs[bs[i].key], more) && Named(more, {bs[i].key.name})
    ensures BackstoresDone(objs, bs[..i + 1], before + more) && Named(before + more, Names(bs[..i + 1]))
    ensures Keys(bs[..i + 1]) == Keys(bs[..i]) + {bs[i].key}
  {
    assert bs[..i + 1] == bs[..i] + [bs[i]];
    forall b | b in bs[..i + 1]
      ensures b.key in objs && Done(b, objs[b.key], before + more)
    {
      if b in bs[..i] {
        assert b.key.name != bs[i].key.name;
        DoneKeeps(b, objs[b.key], before, more);
      } else {
        DoneAfter(b, objs[b.key], before, more);
      }
    }
  }

  ghost predicate ValidBackstoreNames(bs: seq<Backstore>) {
    forall i, j :: 0 <= i < j < |bs| ==> bs[i].key.name != bs[j].key.name
  }

  /** With mode and claim from one flag, the weld holds after the pass if it held before. */
  ghost predicate WeldKept(o0: map<Key, Obj>, o1: map<Key, Obj>, bs: seq<Backstore>) {
    forall flag | FlagOf(bs, flag) && WeldSafe(o0, flag) :: WeldSafe(o1, flag)
  }

  /** No object was given a record but those it had and those the provider has for it. */
  ghost predicate LoadedFrom(o0: map<Key, Obj>, o1: map<Key, Obj>, records: map<Key, seq<string>>) {
    forall k | k in o1 :: o1[k].loaded <= (if k in o0 then o0[k].loaded else {}) + Given(records, k)
  }

  /** An object enabled by the pass was first given everything that is saved for it, and what an
      object was given it keeps. */
  ghost predicate LoadedFirst(o0: map<Key, Obj>, o1: map<Key, Obj>, records: map<Key, seq<string>>) {
    && (forall k | k in o1 && o1[k].enabled :: (k in o0 && o0[k].enabled) || (k in records && Given(records, k) <= o1[k].loaded))
    && (forall k | k in o1 && k in o0 :: o0[k].loaded <= o1[k].loaded)
  }

  /** Only objects of bs can be new, each is given what is saved for it, all of it before it is
      enabled and nothing else, and the weld is kept. */
  ghost predicate ObjsFrom(o0: map<Key, Obj>, o1: map<Key, Obj>, bs: seq<Backstore>, records: map<Key, seq<string>>) {
    o1.Keys <= o0.Keys + Keys(bs) && WeldKept(o0, o1, bs) && LoadedFrom(o0, o1, records) && LoadedFirst(o0, o1, records)
  }

  lemma LoadedFirstNext(t0: Tree, t1: Tree, t2: Tree, k: Key, records: map<Key, seq<string>>)
    requires LoadedFirst(t0.objs, t1.objs, records) && OnlyObj(t1, t2, k) && GivenFirst(t1, t2, k, records)
    requires t0.objs.Keys <= t1.objs.Keys
    ensures LoadedFirst(t0.objs, t2.objs, records)
  {
  }

  lemma LoadedNext(t0: Tree, t1: Tree, t2: Tree, k: Key, records: map<Key, seq<string>>)
    requires LoadedFrom(t0.objs, t1.objs, records) && OnlyObj(t1, t2, k) && GivenOnly(t1, t2, k, records)
    ensures LoadedFrom(t0.objs, t2.objs, records)
  {
  }

  lemma WeldKeptNext(o0: map<Key, Obj>, o1: map<Key, Obj>, o2: map<Key, Obj>, bs: seq<Backstore>, b: Backstore)
    requires b in bs && WeldKept(o0, o1, bs)
    requires OneFlag(b) && WeldSafe(o1, b.buffered) ==> WeldSafe(o2, b.buffered)
    ensures WeldKept(o0, o2, bs)
  {
  }

  /** The backstores of bs have been seen to. */
  ghost predicate BackstoresUnderway(t0: Tree, t: Tree, bs: seq<Backstore>, drift: seq<Drift>) {
    BackstoresSeenTo(t0, t, bs, drift) == true // carried whole, not clause by clause
  }

  ghost predicate BackstoresSeenTo(t0: Tree, t: Tree, bs: seq<Backstore>, drift: seq<Drift>) {
    && OnlyObjs(t0, t, Keys(bs)) && t.objs.Keys == t0.objs.Keys + Keys(bs)
    && BackstoresDone(t.objs, bs, drift) && Named(drift, Names(bs))
  }

  lemma BackstoresStep(t0: Tree, t1: Tree, t2: Tree, bs: seq<Backstore>, i: nat, drift: seq<Drift>, more: seq<Drift>)
    requires i < |bs| && ValidBackstoreNames(bs) && BackstoresUnderway(t0, t1, bs[..i], drift) && OnlyObj(t1, t2, bs[i].key)
    requires bs[i].key in t2.objs && Done(bs[i], t2.objs[bs[i].key], more) && Named(more, {bs[i].key.name})
    ensures BackstoresUnderway(t0, t2, bs[..i + 1], drift + more)
  {
    BackstoresNext(t1.objs, t2.objs, bs, i, drift, more);
    OnlyObjsStep(t0, t1, t2, Keys(bs[..i]), bs[i].key);
  }

  lemma OnlyObjsStep(t0: Tree, t1: Tree, t2: Tree, ks: set<Key>, k: Key)
    requires OnlyObjs(t0, t1, ks) && OnlyObj(t1, t2, k)
    ensures OnlyObjs(t0, t2, ks + {k})
    ensures t1.objs.Keys == t0.objs.Keys + ks && k in t2.objs ==> t2.objs.Keys == t0.objs.Keys + (ks + {k})
  {
  }

  lemma BackstoresStopped(t0: Tree, t1: Tree, t2: Tree, bs: seq<Backstore>, i: nat, drift: seq<Drift>)
    requires i < |bs| && BackstoresUnderway(t0, t1, bs[..i], drift) && OnlyObj(t1, t2, bs[i].key)
    ensures OnlyObjs(t0, t2, Keys(bs))
  {
    OnlyObjsStep(t0, t1, t2, Keys(bs[..i]), bs[i].key);
    assert bs[i] in bs && forall b | b in bs[..i] :: b in bs;
  }

  ghost predicate AllServable(bs: seq<Backstore>, t: Tree, records: map<Key, seq<string>>) {
    forall b | b in bs :: Servable(b, t, records)
  }

  /** Seeing to the others changes nothing for the next. */
  lemma ServableStill(t0: Tree, t1: Tree, bs: seq<Backstore>, i: nat, drift: seq<Drift>, records: map<Key, seq<string>>)
    requires i < |bs| && ValidBackstoreNames(bs) && BackstoresUnderway(t0, t1, bs[..i], drift)
    ensures AllServable(bs, t0, records) ==> Servable(bs[i], t1, records)
  {
    forall b | b in bs[..i] ensures b.key != bs[i].key {
      assert b.key.name != bs[i].key.name;
    }
    assert ObjAt(t1, bs[i].key) == ObjAt(t0, bs[i].key);
    assert bs[i] in bs;
  }

  method EnsureBackstores(fs: Configfs, bs: seq<Backstore>, records: map<Key, seq<string>>) returns (err: Err, drift: seq<Drift>)
    requires fs.Inv() && ValidBackstoreNames(bs)
    modifies fs`tree, fs`writes, fs`owed
    ensures fs.Inv() && OnlyObjs(old(fs.tree), fs.tree, Keys(bs)) && BackstoreErr(err)
    ensures AllServable(bs, old(fs.tree), records) ==> fs.faults || err == Ok
    ensures err == Ok ==> fs.tree.objs.Keys == old(fs.tree).objs.Keys + Keys(bs)
    ensures err == Ok ==> BackstoresDone(fs.tree.objs, bs, drift) && Named(drift, Names(bs))
    ensures BackstoresSettled(old(fs.tree).objs, bs) ==> fs.tree == old(fs.tree) && fs.writes == old(fs.writes)
    ensures ObjsFrom(old(fs.tree).objs, fs.tree.objs, bs, records)
  {
    ghost var t0 := fs.tree;
    drift := [];
    for i := 0 to |bs|
      invariant fs.Inv() && BackstoresUnderway(t0, fs.tree, bs[..i], drift)
      invariant BackstoresSettled(t0.objs, bs) ==> fs.tree == t0 && fs.writes == old(fs.writes)
      invariant WeldKept(t0.objs, fs.tree.objs, bs) && LoadedFrom(t0.objs, fs.tree.objs, records) && LoadedFirst(t0.objs, fs.tree.objs, records)
    {
      assert bs[i] in bs;
      ghost var t1 := fs.tree;
      ServableStill(t0, t1, bs, i, drift, records);
      var more;
      err, more := EnsureBackstore(fs, bs[i], records);
      WeldKeptNext(t0.objs, t1.objs, fs.tree.objs, bs, bs[i]);
      BackstoresStopped(t0, t1, fs.tree, bs, i, drift);
      LoadedNext(t0, t1, fs.tree, bs[i].key, records);
      LoadedFirstNext(t0, t1, fs.tree, bs[i].key, records);
      if err != Ok { return; }
      BackstoresStep(t0, t1, fs.tree, bs, i, drift, more);
      drift := drift + more;
    }
    assert bs[..|bs|] == bs;
    err := Ok;
  }

  // ----- Apply -----

  ghost predicate Steady(t: Tree, c: Config) {
    BackstoresSettled(t.objs, c.backstores) && TargetsHeld(t, c.targets, KeyMap(c.backstores))
  }

  lemma ValidFits(c: Config)
    requires Valid(c)
    ensures TargetsFit(c.targets, KeyMap(c.backstores), c)
    ensures TargetsResolved(c.targets, KeyMap(c.backstores)) && ValidBackstoreNames(c.backstores)
  {
    KeyMapAt(c.backstores);
    var names := KeyMap(c.backstores);
    forall t, g | t in c.targets && g in t.tpgs
      ensures TpgFits(g, Path(t.iqn, g.tag), names, c)
    {
      forall l | l in g.luns && l.backstore in names
        ensures Goal(c, Path(t.iqn, g.tag), l.index, names[l.backstore])
      {
      }
    }
  }

  lemma ValidWired(nodes: map<Path, Node>, c: Config)
    requires Valid(c)
    ensures TargetsWired(nodes, c.targets)
  {
    forall t, g | t in c.targets && g in t.tpgs ensures TpgWired(g, NodeAt(nodes, Path(t.iqn, g.tag))) {
      assert ValidTpg(g, Names(c.backstores));
    }
  }

  lemma NoClashClear(nodes: map<Path, Node>, c: Config)
    requires Valid(c) && NoClash(nodes, c)
    ensures TargetsClear(nodes, c.targets, KeyMap(c.backstores))
  {
    var names := KeyMap(c.backstores);
    forall t, g, l | t in c.targets && g in t.tpgs && l in g.luns
      ensures LunClear(NodeAt(nodes, Path(t.iqn, g.tag)).luns, l, names)
    {
      var p := Path(t.iqn, g.tag);
      if l.backstore in names {
        assert Goal(c, p, l.index, names[l.backstore]);
        assert l.index in NodeAt(nodes, p).luns ==> LinkAt(nodes, p, l.index) == NodeAt(nodes, p).luns[l.index];
      }
    }
  }

  lemma DoneNamesLive(objs: map<Key, Obj>, bs: seq<Backstore>, drift: seq<Drift>)
    requires BackstoresDone(objs, bs, drift) && ValidBackstoreNames(bs)
    ensures NamesLive(KeyMap(bs), objs)
  {
    forall n | n in KeyMap(bs)
      ensures KeyMap(bs)[n] in objs && objs[KeyMap(bs)[n]].enabled
    {
      var b := KeyMapNames(bs, n);
    }
  }

  lemma {:induction false} KeyMapNames(bs: seq<Backstore>, n: string) returns (b: Backstore)
    requires n in KeyMap(bs)
    ensures b in bs && b.key.name == n && b.key == KeyMap(bs)[n]
  {
    b := bs[|bs| - 1];
    if b.key.name != n {
      b := KeyMapNames(bs[..|bs| - 1], n);
    }
  }

  /** Apply: additive and fail-stop, so a failure leaves every link old, gone or desired. */
  method ApplyConfig(fs: Configfs, c: Config, records: map<Key, seq<string>>) returns (err: Err, drift: seq<Drift>)
    requires fs.Inv() && Valid(c)
    modifies fs`tree, fs`writes, fs`repoints, fs`owed
    ensures fs.Inv() && err in {Ok, Io, Inval, Invalid, Incompatible, Refused}
    ensures Toward(old(fs.tree).nodes, fs.tree.nodes, c)
    ensures TargetsReady(old(fs.tree).nodes, c.targets) ==> err != Refused
    ensures TargetsReady(old(fs.tree).nodes, c.targets) && AllServable(c.backstores, old(fs.tree), records) ==> fs.faults || err == Ok
    ensures NoClash(old(fs.tree).nodes, c) ==> fs.repoints == old(fs.repoints)
    ensures Counted(old(fs.tree).nodes, fs.tree.nodes, old(fs.repoints), fs.repoints)
    ensures Steady(old(fs.tree), c) ==> fs.tree == old(fs.tree) && fs.writes == old(fs.writes)
    ensures TargetsHeld(old(fs.tree), c.targets, KeyMap(c.backstores)) ==>
              fs.tree.nodes == old(fs.tree).nodes && fs.tree.targets == old(fs.tree).targets
    ensures OnlyObjs(old(fs.tree), fs.tree.(nodes := old(fs.tree).nodes, targets := old(fs.tree).targets), Keys(c.backstores))
    ensures ObjsFrom(old(fs.tree).objs, fs.tree.objs, c.backstores, records)
    ensures err == Ok ==> Added(old(fs.tree), fs.tree, c)
    ensures err == Ok ==> BackstoresDone(fs.tree.objs, c.backstores, drift) && Named(drift, Names(c.backstores))
  {
    ValidFits(c);
    ValidWired(fs.tree.nodes, c);
    if NoClash(fs.tree.nodes, c) {
      NoClashClear(fs.tree.nodes, c);
    }
    err, drift := EnsureBackstores(fs, c.backstores, records);
    if err != Ok { return; }
    assert fs.tree.nodes == old(fs.tree).nodes;
    DoneNamesLive(fs.tree.objs, c.backstores, drift);
    err := EnsureTargets(fs, c.targets, KeyMap(c.backstores), c);
  }

  /** What a successful Apply adds to a tree. */
  ghost predicate Added(t0: Tree, t1: Tree, c: Config) {
    && t1.objs.Keys == t0.objs.Keys + Keys(c.backstores)
    && (forall k | k in t0.objs && t0.objs[k].enabled :: t1.objs[k].enabled)
    && t1.targets == t0.targets + Iqns(c.targets)
    && TargetsResolved(c.targets, KeyMap(c.backstores))
    && TargetsApplied(t0.nodes, t1.nodes, c.targets, KeyMap(c.backstores))
  }
}
