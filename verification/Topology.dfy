/** What it means for the live tree to be exactly what a config describes, and what
    one additive pass makes of a node. */
module Topology {
  import opened LioConfig
  import opened Kernel

  /** applyCtx.stateBackstores: the config's backstores by name. */
  function KeyMap(bs: seq<Backstore>): map<string, Key> {
    if bs == [] then map[]
    else KeyMap(bs[..|bs| - 1])[bs[|bs| - 1].key.name := bs[|bs| - 1].key]
  }

  ghost function PathsOf(ts: seq<Target>): set<Path> {
    set t, g | t in ts && g in t.tpgs :: Path(t.iqn, g.tag)
  }

  // ----- the tree is exactly the config -----

  ghost predicate LunsRealised(m: map<int, Option<Key>>, luns: seq<LUN>, names: map<string, Key>) {
    && m.Keys == LunIndices(luns)
    && forall l | l in luns :: l.index in m && l.backstore in names && m[l.index] == Some(names[l.backstore])
  }

  ghost predicate MappedRealised(m: map<int, Mapping>, ms: seq<MappedLUN>) {
    && m.Keys == MappedIndices(ms)
    && forall x | x in ms :: x.index in m && m[x.index] == Mapping(Some(x.tpgLun), x.writeProtect)
  }

  ghost predicate AclsRealised(m: map<string, map<int, Mapping>>, acls: seq<ACL>) {
    && m.Keys == Initiators(acls)
    && forall a | a in acls :: a.initiator in m && MappedRealised(m[a.initiator], a.mapped)
  }

  ghost predicate NodeRealised(n: Node, g: TPG, names: map<string, Key>) {
    && n.enable == g.enable
    && n.portals == (set p | p in g.portals)
    && LunsRealised(n.luns, g.luns, names)
    && AclsRealised(n.acls, g.acls)
  }

  ghost predicate NodesRealised(nodes: map<Path, Node>, c: Config) {
    && nodes.Keys == PathsOf(c.targets)
    && forall t, g | t in c.targets && g in t.tpgs ::
         Path(t.iqn, g.tag) in nodes && NodeRealised(nodes[Path(t.iqn, g.tag)], g, KeyMap(c.backstores))
  }

  ghost predicate Realised(t: Tree, c: Config) {
    && t.objs.Keys == Keys(c.backstores)
    && (forall k | k in t.objs :: t.objs[k].enabled)
    && t.targets == Iqns(c.targets)
    && NodesRealised(t.nodes, c)
  }

  lemma NodeRealisedOnce(n: Node, m: Node, g: TPG, names: map<string, Key>)
    requires NodeRealised(n, g, names) && NodeRealised(m, g, names)
    ensures n == m
  {
    forall i | i in n.luns
      ensures n.luns[i] == m.luns[i]
    {
      var l :| l in g.luns && l.index == i;
    }
    forall a | a in n.acls
      ensures n.acls[a] == m.acls[a]
    {
      var acl :| acl in g.acls && acl.initiator == a;
      forall j | j in n.acls[a]
        ensures n.acls[a][j] == m.acls[a][j]
      {
        var x :| x in acl.mapped && x.index == j;
      }
    }
  }

  /** A config pins the topology down: two trees that realise it agree on it. */
  lemma RealisedOnce(t: Tree, u: Tree, c: Config)
    requires Realised(t, c) && Realised(u, c)
    ensures t.objs.Keys == u.objs.Keys && t.targets == u.targets && t.nodes == u.nodes
  {
    forall p | p in t.nodes
      ensures t.nodes[p] == u.nodes[p]
    {
      var tg, g :| tg in c.targets && g in tg.tpgs && p == Path(tg.iqn, g.tag);
      NodeRealisedOnce(t.nodes[p], u.nodes[p], g, KeyMap(c.backstores));
    }
  }

  lemma {:induction false} KeyMapAt(bs: seq<Backstore>)
    requires ValidBackstores(bs)
    ensures KeyMap(bs).Keys == Names(bs)
    ensures forall b | b in bs :: b.key.name in KeyMap(bs) && KeyMap(bs)[b.key.name] == b.key
  {
    if bs != [] {
      var init, last := bs[..|bs| - 1], bs[|bs| - 1];
      assert bs == init + [last];
      assert ValidBackstores(init);
      KeyMapAt(init);
    }
  }

  /** Names resolve by key alone, whatever else the records say. */
  lemma {:induction false} KeyMapSame(bs: seq<Backstore>, vs: seq<Backstore>)
    requires |bs| == |vs| && forall i | 0 <= i < |bs| :: vs[i].key == bs[i].key
    ensures KeyMap(vs) == KeyMap(bs)
  {
    if bs != [] {
      KeyMapSame(bs[..|bs| - 1], vs[..|vs| - 1]);
    }
  }

  // ----- one additive pass over a node -----

  ghost predicate Resolved(luns: seq<LUN>, names: map<string, Key>) {
    forall l | l in luns :: l.backstore in names
  }

  function ApplyLuns(base: map<int, Option<Key>>, luns: seq<LUN>, names: map<string, Key>): map<int, Option<Key>>
    requires Resolved(luns, names)
  {
    if luns == [] then base
    else
      var last := luns[|luns| - 1];
      ApplyLuns(base, luns[..|luns| - 1], names)[last.index := Some(names[last.backstore])]
  }

  function ApplyMapped(base: map<int, Mapping>, ms: seq<MappedLUN>): map<int, Mapping> {
    if ms == [] then base
    else
      var last := ms[|ms| - 1];
      ApplyMapped(base, ms[..|ms| - 1])[last.index := Mapping(Some(last.tpgLun), last.writeProtect)]
  }

  function AclAt(acls: map<string, map<int, Mapping>>, a: string): map<int, Mapping> {
    if a in acls then acls[a] else map[]
  }

  function ApplyAcls(base: map<string, map<int, Mapping>>, acls: seq<ACL>): map<string, map<int, Mapping>> {
    if acls == [] then base
    else
      var last := acls[|acls| - 1];
      var m := ApplyAcls(base, acls[..|acls| - 1]);
      m[last.initiator := ApplyMapped(AclAt(m, last.initiator), last.mapped)]
  }

  function NodeAt(nodes: map<Path, Node>, p: Path): Node {
    if p in nodes then nodes[p] else EMPTY_NODE
  }

  ghost function EnsureNode(n: Node, g: TPG, names: map<string, Key>): Node
    requires Resolved(g.luns, names)
  {
    Node(g.enable, n.portals + (set p | p in g.portals), ApplyLuns(n.luns, g.luns, names), ApplyAcls(n.acls, g.acls))
  }

  lemma {:induction false} ApplyLunsAt(base: map<int, Option<Key>>, luns: seq<LUN>, names: map<string, Key>)
    requires ValidLuns(luns, names.Keys)
    ensures ApplyLuns(base, luns, names).Keys == base.Keys + LunIndices(luns)
    ensures forall l | l in luns :: ApplyLuns(base, luns, names)[l.index] == Some(names[l.backstore])
    ensures forall i | i in base && i !in LunIndices(luns) :: ApplyLuns(base, luns, names)[i] == base[i]
  {
    if luns != [] {
      var init, last := luns[..|luns| - 1], luns[|luns| - 1];
      assert luns == init + [last];
      ApplyLunsAt(base, init, names);
      assert LunIndices(luns) == LunIndices(init) + {last.index};
    }
  }

  lemma {:induction false} ApplyMappedAt(base: map<int, Mapping>, ms: seq<MappedLUN>)
    requires forall i, j :: 0 <= i < j < |ms| ==> ms[i].index != ms[j].index
    ensures ApplyMapped(base, ms).Keys == base.Keys + MappedIndices(ms)
    ensures forall x | x in ms :: ApplyMapped(base, ms)[x.index] == Mapping(Some(x.tpgLun), x.writeProtect)
    ensures forall i | i in base && i !in MappedIndices(ms) :: ApplyMapped(base, ms)[i] == base[i]
  {
    if ms != [] {
      var init, last := ms[..|ms| - 1], ms[|ms| - 1];
      assert ms == init + [last];
      ApplyMappedAt(base, init);
      assert MappedIndices(ms) == MappedIndices(init) + {last.index};
      assert ApplyMapped(base, ms) == ApplyMapped(base, init)[last.index := Mapping(Some(last.tpgLun), last.writeProtect)];
      assert last.index !in MappedIndices(init);
    }
  }

  lemma {:induction false} ApplyAclsAt(base: map<string, map<int, Mapping>>, acls: seq<ACL>)
    requires forall i, j :: 0 <= i < j < |acls| ==> acls[i].initiator != acls[j].initiator
    ensures ApplyAcls(base, acls).Keys == base.Keys + Initiators(acls)
    ensures forall a | a in acls ::
              ApplyAcls(base, acls)[a.initiator] == ApplyMapped(AclAt(base, a.initiator), a.mapped)
    ensures forall a | a in base && a !in Initiators(acls) :: ApplyAcls(base, acls)[a] == base[a]
  {
    if acls != [] {
      var init, last := acls[..|acls| - 1], acls[|acls| - 1];
      assert acls == init + [last];
      ApplyAclsAt(base, init);
      var m, r := ApplyAcls(base, init), ApplyAcls(base, acls);
      assert Initiators(acls) == Initiators(init) + {last.initiator};
      assert last.initiator !in Initiators(init);
      var mine := ApplyMapped(AclAt(base, last.initiator), last.mapped);
      assert AclAt(m, last.initiator) == AclAt(base, last.initiator);
      assert r == m[last.initiator := mine];
      forall a | a in acls
        ensures r[a.initiator] == ApplyMapped(AclAt(base, a.initiator), a.mapped)
      {
        assert a in init || a == last;
      }
    }
  }

  // ----- how the nodes change over a pass -----

  ghost predicate TpgsApplied(n0: map<Path, Node>, n1: map<Path, Node>, iqn: string, gs: seq<TPG>, names: map<string, Key>)
    requires forall g | g in gs :: Resolved(g.luns, names)
  {
    && n0.Keys <= n1.Keys
    && (forall g | g in gs ::
          Path(iqn, g.tag) in n1 && n1[Path(iqn, g.tag)] == EnsureNode(NodeAt(n0, Path(iqn, g.tag)), g, names))
    && (forall p | p in n1 && !(p.iqn == iqn && p.tag in Tags(gs)) :: p in n0 && n1[p] == n0[p])
  }

  ghost predicate TargetsApplied(n0: map<Path, Node>, n1: map<Path, Node>, ts: seq<Target>, names: map<string, Key>)
    requires forall t, g | t in ts && g in t.tpgs :: Resolved(g.luns, names)
  {
    && n0.Keys <= n1.Keys
    && (forall t, g | t in ts && g in t.tpgs ::
          && Path(t.iqn, g.tag) in n1
          && n1[Path(t.iqn, g.tag)] == EnsureNode(NodeAt(n0, Path(t.iqn, g.tag)), g, names))
    && (forall p | p in n1 && p !in PathsOf(ts) :: p in n0 && n1[p] == n0[p])
  }

  // ----- where links may go while a pass is under way -----

  /** c asks for LUN i of TPG p to expose backstore k. */
  ghost predicate Goal(c: Config, p: Path, i: int, k: Key) {
    exists t, g, l :: && t in c.targets && g in t.tpgs && l in g.luns
                      && p == Path(t.iqn, g.tag) && i == l.index
                      && l.backstore in KeyMap(c.backstores) && k == KeyMap(c.backstores)[l.backstore]
  }

  lemma SameTarget(c: Config, t: Target, t': Target)
    requires Valid(c) && t in c.targets && t' in c.targets && t.iqn == t'.iqn
    ensures t == t'
  {
    var i :| 0 <= i < |c.targets| && c.targets[i] == t;
    var j :| 0 <= j < |c.targets| && c.targets[j] == t';
  }

  lemma SameTpg(gs: seq<TPG>, names: set<string>, g: TPG, g': TPG)
    requires ValidTpgs(gs, names) && g in gs && g' in gs && g.tag == g'.tag
    ensures g == g'
  {
    var i :| 0 <= i < |gs| && gs[i] == g;
    var j :| 0 <= j < |gs| && gs[j] == g';
  }

  /** Between two points of a pass every LUN link is the old one, gone, or the desired one. */
  ghost predicate Toward(n0: map<Path, Node>, n1: map<Path, Node>, c: Config) {
    forall p, i :: && LinkAt(n1, p, i).Some?
                   && LinkAt(n1, p, i) != LinkAt(n0, p, i)
                   ==> Goal(c, p, i, LinkAt(n1, p, i).value)
  }

  /** No LUN that c wants is live with another backstore. */
  ghost predicate NoClash(n: map<Path, Node>, c: Config) {
    forall p, i, k :: LinkAt(n, p, i).Some? && Goal(c, p, i, k) ==> LinkAt(n, p, i) == Some(k)
  }

  // ----- looking a TPG up by its path -----

  function FindTag(gs: seq<TPG>, tag: int): Option<TPG> {
    if gs == [] then None else if gs[0].tag == tag then Some(gs[0]) else FindTag(gs[1..], tag)
  }

  /** desiredTPG (lio/sync.go:273-285). */
  function DesiredTpg(ts: seq<Target>, p: Path): Option<TPG> {
    if ts == [] then None
    else if ts[0].iqn == p.iqn && FindTag(ts[0].tpgs, p.tag).Some? then FindTag(ts[0].tpgs, p.tag)
    else DesiredTpg(ts[1..], p)
  }

  lemma {:induction false} FindTagIs(gs: seq<TPG>, tag: int)
    ensures FindTag(gs, tag).Some? ==> FindTag(gs, tag).value in gs && FindTag(gs, tag).value.tag == tag
    ensures FindTag(gs, tag).None? ==> forall g | g in gs :: g.tag != tag
  {
    if gs != [] {
      FindTagIs(gs[1..], tag);
    }
  }

  lemma {:induction false} DesiredTpgIs(ts: seq<Target>, p: Path)
    ensures DesiredTpg(ts, p).Some? ==>
              exists t :: t in ts && t.iqn == p.iqn && DesiredTpg(ts, p).value in t.tpgs && DesiredTpg(ts, p).value.tag == p.tag
    ensures DesiredTpg(ts, p).None? ==> forall t, g | t in ts && g in t.tpgs :: p != Path(t.iqn, g.tag)
  {
    if ts != [] {
      FindTagIs(ts[0].tpgs, p.tag);
      DesiredTpgIs(ts[1..], p);
    }
  }

  lemma DesiredTpgOnce(c: Config, t: Target, g: TPG)
    requires Valid(c) && t in c.targets && g in t.tpgs
    ensures DesiredTpg(c.targets, Path(t.iqn, g.tag)) == Some(g)
  {
    var p := Path(t.iqn, g.tag);
    DesiredTpgIs(c.targets, p);
    var t' :| t' in c.targets && t'.iqn == p.iqn && DesiredTpg(c.targets, p).value in t'.tpgs && DesiredTpg(c.targets, p).value.tag == p.tag;
    SameTarget(c, t, t');
    SameTpg(t.tpgs, Names(c.backstores), g, DesiredTpg(c.targets, p).value);
  }

  /** The paths c asks for are those its lookup finds. */
  lemma PathsWanted(c: Config)
    requires Valid(c)
    ensures forall p :: p in PathsOf(c.targets) <==> DesiredTpg(c.targets, p).Some?
    ensures forall t, g | t in c.targets && g in t.tpgs :: DesiredTpg(c.targets, Path(t.iqn, g.tag)) == Some(g)
    ensures forall p :: DesiredTpg(c.targets, p).Some? ==>
              ValidTpg(DesiredTpg(c.targets, p).value, Names(c.backstores)) && p.iqn in Iqns(c.targets)
  {
    forall t, g | t in c.targets && g in t.tpgs
      ensures DesiredTpg(c.targets, Path(t.iqn, g.tag)) == Some(g)
    {
      DesiredTpgOnce(c, t, g);
    }
    forall p
      ensures p in PathsOf(c.targets) <==> DesiredTpg(c.targets, p).Some?
      ensures DesiredTpg(c.targets, p).Some? ==>
                ValidTpg(DesiredTpg(c.targets, p).value, Names(c.backstores)) && p.iqn in Iqns(c.targets)
    {
      DesiredTpgIs(c.targets, p);
    }
  }
}
