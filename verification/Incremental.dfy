/** ApplyDelta (lio/delta.go:395-493): the incremental form of Sync. */
module Incremental {
  import opened LioConfig
  import opened Kernel
  import opened Topology
  import opened Backstores
  import opened Ensure
  import opened Apply
  import opened Remove
  import opened Sync
  import opened Diff

  // ----- two configs of the same shape have the same TPGs -----

  lemma SameKeys<T, K>(xs: seq<T>, ys: seq<T>, key: T -> K)
    requires Distinct(xs, key) && Distinct(ys, key) && |xs| == |ys|
    requires KeysOf(ys, key) <= KeysOf(xs, key)
    ensures KeysOf(ys, key) == KeysOf(xs, key)
  {
    KeysCount(xs, key);
    KeysCount(ys, key);
    SubsetCount(KeysOf(ys, key), KeysOf(xs, key));
  }

  lemma SameIqns(prev: Config, next: Config)
    requires Valid(prev) && Valid(next) && SameShape(prev, next)
    ensures Iqns(prev.targets) == Iqns(next.targets)
  {
    forall j | 0 <= j < |next.targets|
      ensures next.targets[j].iqn in KeysOf(prev.targets, IqnKey)
    {
      var t := next.targets[j];
      AllLikeAt(prev.targets, next.targets);
      assert t in next.targets && HasLike(prev.targets, t);
      FindTargetIs(prev.targets, t.iqn);
    }
    SameKeys(prev.targets, next.targets, IqnKey);
    IqnKeys(prev.targets);
    IqnKeys(next.targets);
  }

  lemma IqnKeys(ts: seq<Target>)
    ensures KeysOf(ts, IqnKey) == Iqns(ts)
  {
    forall t | t in ts ensures t.iqn in KeysOf(ts, IqnKey) {
      var i :| 0 <= i < |ts| && ts[i] == t;
    }
  }

  lemma TagKeys(gs: seq<TPG>)
    ensures KeysOf(gs, TagKey) == Tags(gs)
  {
    forall g | g in gs ensures g.tag in KeysOf(gs, TagKey) {
      var i :| 0 <= i < |gs| && gs[i] == g;
    }
  }

  lemma SameTags(pt: Target, nt: Target)
    requires Distinct(pt.tpgs, TagKey) && Distinct(nt.tpgs, TagKey) && SameTargetShape(pt, nt)
    ensures Tags(pt.tpgs) == Tags(nt.tpgs)
  {
    forall j | 0 <= j < |nt.tpgs|
      ensures nt.tpgs[j].tag in KeysOf(pt.tpgs, TagKey)
    {
      var g := nt.tpgs[j];
      assert g in nt.tpgs;
      FindTagIs(pt.tpgs, g.tag);
    }
    SameKeys(pt.tpgs, nt.tpgs, TagKey);
    TagKeys(pt.tpgs);
    TagKeys(nt.tpgs);
  }

  /** A TPG of next, and its counterpart in prev. */
  lemma Counterpart(prev: Config, next: Config, nt: Target, ng: TPG) returns (pt: Target, pg: TPG)
    requires Valid(prev) && Valid(next) && SameShape(prev, next) && nt in next.targets && ng in nt.tpgs
    ensures pt in prev.targets && FindTarget(prev.targets, nt.iqn) == Some(pt) && pt.iqn == nt.iqn
    ensures pg in pt.tpgs && FindTag(pt.tpgs, ng.tag) == Some(pg) && pg.tag == ng.tag && SameTpgShape(pg, ng)
    ensures DesiredTpg(prev.targets, Path(nt.iqn, ng.tag)) == Some(pg)
    ensures DesiredTpg(next.targets, Path(nt.iqn, ng.tag)) == Some(ng)
  {
    AllLikeAt(prev.targets, next.targets);
    assert HasLike(prev.targets, nt);
    FindTargetIs(prev.targets, nt.iqn);
    pt := FindTarget(prev.targets, nt.iqn).value;
    FindTagIs(pt.tpgs, ng.tag);
    pg := FindTag(pt.tpgs, ng.tag).value;
    DesiredTpgOnce(prev, pt, pg);
    DesiredTpgOnce(next, nt, ng);
  }

  lemma SamePaths(prev: Config, next: Config)
    requires Valid(prev) && Valid(next) && SameShape(prev, next)
    ensures PathsOf(prev.targets) == PathsOf(next.targets)
    ensures forall p | p in PathsOf(next.targets) ::
              && DesiredTpg(prev.targets, p).Some? && DesiredTpg(next.targets, p).Some?
              && SameTpgShape(DesiredTpg(prev.targets, p).value, DesiredTpg(next.targets, p).value)
  {
    SameIqns(prev, next);
    forall p | p in PathsOf(next.targets)
      ensures p in PathsOf(prev.targets)
      ensures DesiredTpg(prev.targets, p).Some? && DesiredTpg(next.targets, p).Some?
      ensures SameTpgShape(DesiredTpg(prev.targets, p).value, DesiredTpg(next.targets, p).value)
    {
      var nt, ng :| nt in next.targets && ng in nt.tpgs && p == Path(nt.iqn, ng.tag);
      var pt, pg := Counterpart(prev, next, nt, ng);
      assert p == Path(pt.iqn, pg.tag);
    }
    forall p | p in PathsOf(prev.targets)
      ensures p in PathsOf(next.targets)
    {
      var pt, pg :| pt in prev.targets && pg in pt.tpgs && p == Path(pt.iqn, pg.tag);
      assert pt.iqn in Iqns(next.targets);
      var nt :| nt in next.targets && nt.iqn == pt.iqn;
      FindTargetAt(prev.targets, pt);
      AllLikeAt(prev.targets, next.targets);
      assert HasLike(prev.targets, nt);
      SameTags(pt, nt);
      assert pg.tag in Tags(nt.tpgs);
    }
  }

  // ----- what the additive half of a delta contains -----

  lemma {:induction false} NewTpgsHas(prev: seq<TPG>, next: seq<TPG>, ng: TPG)
    requires ng in next && FindTag(prev, ng.tag).Some? && TpgChanged(FindTag(prev, ng.tag).value, ng)
    ensures NewTpg(FindTag(prev, ng.tag).value, ng) in NewTpgs(prev, next)
  {
    var init, last := next[..|next| - 1], next[|next| - 1];
    assert next == init + [last];
    if ng in init {
      NewTpgsHas(prev, init, ng);
    }
  }

  lemma {:induction false} NewTargetsHas(prev: seq<Target>, next: seq<Target>, nt: Target, g: TPG)
    requires nt in next && FindTarget(prev, nt.iqn).Some? && g in NewTpgs(FindTarget(prev, nt.iqn).value.tpgs, nt.tpgs)
    ensures exists t :: t in NewTargets(prev, next) && t.iqn == nt.iqn && g in t.tpgs
  {
    var init, last := next[..|next| - 1], next[|next| - 1];
    assert next == init + [last];
    if nt in init {
      NewTargetsHas(prev, init, nt, g);
    } else {
      assert Target(nt.iqn, NewTpgs(FindTarget(prev, nt.iqn).value.tpgs, nt.tpgs)) in NewTargets(prev, next);
    }
  }

  lemma {:induction false} NewTpgsDistinct(prev: seq<TPG>, next: seq<TPG>)
    requires Distinct(next, TagKey)
    ensures Distinct(NewTpgs(prev, next), TagKey)
    ensures forall g | g in NewTpgs(prev, next) :: exists ng :: ng in next && ng.tag == g.tag
  {
    if next != [] {
      var init, last := next[..|next| - 1], next[|next| - 1];
      assert next == init + [last];
      NewTpgsDistinct(prev, init);
    }
  }

  lemma {:induction false} NewTargetsDistinct(prev: seq<Target>, next: seq<Target>)
    requires Distinct(next, IqnKey) && forall t | t in next :: Distinct(t.tpgs, TagKey)
    ensures Distinct(NewTargets(prev, next), IqnKey)
    ensures forall t | t in NewTargets(prev, next) :: Distinct(t.tpgs, TagKey)
    ensures forall t | t in NewTargets(prev, next) :: exists nt :: nt in next && nt.iqn == t.iqn
  {
    if next != [] {
      var init, last := next[..|next| - 1], next[|next| - 1];
      assert next == init + [last];
      NewTargetsDistinct(prev, init);
      if FindTarget(prev, last.iqn).Some? {
        NewTpgsDistinct(FindTarget(prev, last.iqn).value.tpgs, last.tpgs);
      }
    }
  }

  /** Every TPG of the delta is the difference of the two TPGs at its path. */
  lemma NewTpgAt(prev: Config, next: Config, t: Target, g: TPG) returns (pg: TPG, ng: TPG)
    requires Valid(prev) && Valid(next) && SameShape(prev, next)
    requires t in NewTargets(prev.targets, next.targets) && g in t.tpgs
    ensures DesiredTpg(prev.targets, Path(t.iqn, g.tag)) == Some(pg) && DesiredTpg(next.targets, Path(t.iqn, g.tag)) == Some(ng)
    ensures g == NewTpg(pg, ng) && SameTpgShape(pg, ng) && Path(t.iqn, g.tag) in PathsOf(next.targets)
  {
    NewTargetsRefs(prev.targets, next.targets, t, g);
    var nt, g' :| nt in next.targets && nt.iqn == t.iqn && FindTarget(prev.targets, t.iqn).Some? && g' in nt.tpgs &&
                  FindTag(FindTarget(prev.targets, t.iqn).value.tpgs, g'.tag).Some? &&
                  g == NewTpg(FindTag(FindTarget(prev.targets, t.iqn).value.tpgs, g'.tag).value, g');
    ng := g';
    var pt;
    pt, pg := Counterpart(prev, next, nt, ng);
  }

  /** A TPG that changed is in the delta. */
  lemma ChangedIsNew(prev: Config, next: Config, p: Path)
    requires Valid(prev) && Valid(next) && SameShape(prev, next) && p in PathsOf(next.targets)
    requires DesiredTpg(prev.targets, p).Some? && DesiredTpg(next.targets, p).Some?
    requires TpgChanged(DesiredTpg(prev.targets, p).value, DesiredTpg(next.targets, p).value)
    ensures p in PathsOf(NewTargets(prev.targets, next.targets))
  {
    var nt, ng :| nt in next.targets && ng in nt.tpgs && p == Path(nt.iqn, ng.tag);
    var pt, pg := Counterpart(prev, next, nt, ng);
    NewTpgsHas(pt.tpgs, nt.tpgs, ng);
    NewTargetsHas(prev.targets, next.targets, nt, NewTpg(pg, ng));
    var t :| t in NewTargets(prev.targets, next.targets) && t.iqn == nt.iqn && NewTpg(pg, ng) in t.tpgs;
    assert Path(t.iqn, NewTpg(pg, ng).tag) == p;
  }

  // ----- the names a delta resolves -----

  lemma KeyMapUnique(bs: seq<Backstore>, n: string, b: Backstore)
    requires ValidBackstoreNames(bs) && b in bs && b.key.name == n
    ensures n in KeyMap(bs) && KeyMap(bs)[n] == b.key
  {
    KeyMapHas(bs, b);
    var x := KeyMapNames(bs, n);
    KeyUnique(bs, NameKey, x, b);
  }

  lemma {:induction false} KeyMapHas(bs: seq<Backstore>, b: Backstore)
    requires b in bs
    ensures b.key.name in KeyMap(bs)
  {
    if bs[|bs| - 1] != b {
      assert bs == bs[..|bs| - 1] + [bs[|bs| - 1]];
      KeyMapHas(bs[..|bs| - 1], b);
    }
  }

  /** A name both configs have resolves to the same object: nothing moved. */
  lemma SameName(prev: Config, next: Config, n: string)
    requires Valid(prev) && Valid(next) && forall b | b in next.backstores :: !Moved(prev.backstores, b)
    requires n in Names(prev.backstores) && n in Names(next.backstores)
    ensures n in KeyMap(prev.backstores) && n in KeyMap(next.backstores)
    ensures KeyMap(prev.backstores)[n] == KeyMap(next.backstores)[n]
  {
    var p :| p in prev.backstores && p.key.name == n;
    var b :| b in next.backstores && b.key.name == n;
    KeyMapUnique(prev.backstores, n, p);
    KeyMapUnique(next.backstores, n, b);
    assert !Moved(prev.backstores, b);
  }

  /** A name the delta has resolves as in next. */
  lemma AddedName(prev: Config, next: Config, add: Config, n: string)
    requires Valid(next) && AddsBackstores(prev, next, add) && n in KeyMap(add.backstores)
    ensures n in KeyMap(next.backstores) && KeyMap(add.backstores)[n] == KeyMap(next.backstores)[n]
  {
    var b := KeyMapNames(add.backstores, n);
    KeyMapUnique(next.backstores, n, b);
  }

  /** The delta names every backstore its LUNs need. */
  lemma DeltaResolved(prev: Config, next: Config, d: Delta, t: Target, g: TPG, l: LUN)
    requires Valid(prev) && Valid(next) && IsDelta(prev, next, d) && t in d.add.targets && g in t.tpgs && l in g.luns
    ensures l.backstore in KeyMap(d.add.backstores)
  {
    NewLunsNamed(prev, next, t, g, l);
    var b :| b in next.backstores && b.key.name == l.backstore;
    assert Uses(g.luns, b.key.name);
    assert TpgsUse(t.tpgs, b.key.name);
    assert TargetsUse(d.add.targets, b.key.name);
    KeyMapUnique(d.add.backstores, l.backstore, b);
  }

  lemma DeltaLun(prev: Config, next: Config, d: Delta, t: Target, g: TPG, l: LUN)
    requires Valid(prev) && Valid(next) && IsDelta(prev, next, d) && t in d.add.targets && g in t.tpgs && l in g.luns
    ensures l.backstore in KeyMap(d.add.backstores)
    ensures Goal(next, Path(t.iqn, g.tag), l.index, KeyMap(d.add.backstores)[l.backstore])
  {
    DeltaResolved(prev, next, d, t, g, l);
    AddedName(prev, next, d.add, l.backstore);
    var pg, ng := NewTpgAt(prev, next, t, g);
    NewIs(pg.luns, ng.luns, l);
    DesiredTpgIs(next.targets, Path(t.iqn, g.tag));
  }

  lemma DeltaTpgFits(prev: Config, next: Config, d: Delta, t: Target, g: TPG)
    requires Valid(prev) && Valid(next) && IsDelta(prev, next, d) && t in d.add.targets && g in t.tpgs
    ensures TpgFits(g, Path(t.iqn, g.tag), KeyMap(d.add.backstores), next) && Resolved(g.luns, KeyMap(d.add.backstores))
  {
    var pg, ng := NewTpgAt(prev, next, t, g);
    WantedValid(next, Path(t.iqn, g.tag));
    NewDistinct(pg.luns, ng.luns, LunKey);
    forall l | l in g.luns
      ensures l.backstore in KeyMap(d.add.backstores)
      ensures Goal(next, Path(t.iqn, g.tag), l.index, KeyMap(d.add.backstores)[l.backstore])
    {
      DeltaLun(prev, next, d, t, g, l);
    }
  }

  /** The additive half of a delta is something EnsureTargets can be given. */
  lemma DeltaFits(prev: Config, next: Config, d: Delta)
    requires Valid(prev) && Valid(next) && IsDelta(prev, next, d)
    ensures TargetsFit(d.add.targets, KeyMap(d.add.backstores), next)
    ensures TargetsResolved(d.add.targets, KeyMap(d.add.backstores)) && ValidBackstoreNames(d.add.backstores)
  {
    NewTargetsDistinct(prev.targets, next.targets);
    forall t, g | t in d.add.targets && g in t.tpgs
      ensures TpgFits(g, Path(t.iqn, g.tag), KeyMap(d.add.backstores), next) && Resolved(g.luns, KeyMap(d.add.backstores))
    {
      DeltaTpgFits(prev, next, d, t, g);
    }
  }

  // ----- what the additive half makes of a node -----

  /** Names as the two halves resolve them agree with next. */
  ghost predicate NamesAgree(pg: TPG, ng: TPG, pn: map<string, Key>, an: map<string, Key>, nn: map<string, Key>) {
    forall l | l in ng.luns ::
      && l.backstore in nn
      && (l in pg.luns ==> l.backstore in pn && pn[l.backstore] == nn[l.backstore])
      && (l !in pg.luns ==> l.backstore in an && an[l.backstore] == nn[l.backstore])
  }

  lemma LunsMerged(m: map<int, Option<Key>>, pg: TPG, ng: TPG, pn: map<string, Key>, an: map<string, Key>, nn: map<string, Key>)
    requires LunsRealised(m, pg.luns, pn) && NamesAgree(pg, ng, pn, an, nn) && ValidTpg(ng, nn.Keys)
    requires Resolved(New(pg.luns, ng.luns), an)
    ensures LunsHeld(ApplyLuns(m, New(pg.luns, ng.luns), an), ng.luns, nn)
    ensures ApplyLuns(m, New(pg.luns, ng.luns), an).Keys == LunIndices(pg.luns) + LunIndices(ng.luns)
  {
    var more := New(pg.luns, ng.luns);
    NewDistinct(pg.luns, ng.luns, LunKey);
    forall l ensures l in more <==> l in ng.luns && l !in pg.luns {
      NewIs(pg.luns, ng.luns, l);
    }
    ApplyLunsAt(m, more, an);
    forall l | l in ng.luns
      ensures LunHeld(ApplyLuns(m, more, an), l, nn)
    {
      if l in pg.luns {
        forall x | x in more ensures x.index != l.index {
          SameOther(ng.luns, LunKey, x, l);
        }
      }
    }
  }

  lemma SameOther<T, K>(s: seq<T>, key: T -> K, x: T, y: T)
    requires Distinct(s, key) && x in s && y in s && x != y
    ensures key(x) != key(y)
  {
    if key(x) == key(y) {
      KeyUnique(s, key, x, y);
    }
  }

  lemma MappedMerged(m: map<int, Mapping>, ps: seq<MappedLUN>, ns: seq<MappedLUN>)
    requires MappedRealised(m, ps) && Distinct(ns, MappedKey)
    ensures MappedHeld(ApplyMapped(m, New(ps, ns)), ns)
    ensures ApplyMapped(m, New(ps, ns)).Keys == MappedIndices(ps) + MappedIndices(ns)
  {
    var more := New(ps, ns);
    NewDistinct(ps, ns, MappedKey);
    forall x ensures x in more <==> x in ns && x !in ps {
      NewIs(ps, ns, x);
    }
    ApplyMappedAt(m, more);
    forall y | y in ns && y in ps
      ensures ApplyMapped(m, more)[y.index] == Mapping(Some(y.tpgLun), y.writeProtect)
    {
      forall x | x in more ensures x.index != y.index {
        SameOther(ns, MappedKey, x, y);
      }
    }
  }

  lemma {:induction false} NewAclsIs(pa: seq<ACL>, na: seq<ACL>, x: ACL)
    ensures x in NewAcls(pa, na) <==> exists a :: a in na && NewAcl(pa, a) == [x]
  {
    if na != [] {
      var init, last := na[..|na| - 1], na[|na| - 1];
      assert na == init + [last];
      NewAclsIs(pa, init, x);
    }
  }

  lemma {:induction false} NewAclsDistinct(pa: seq<ACL>, na: seq<ACL>)
    requires Distinct(na, AclKey)
    ensures Distinct(NewAcls(pa, na), AclKey)
    ensures forall x | x in NewAcls(pa, na) :: x.initiator in Initiators(na)
  {
    if na != [] {
      var init, last := na[..|na| - 1], na[|na| - 1];
      assert na == init + [last];
      NewAclsDistinct(pa, init);
    }
  }

  /** What the merged ACL of one initiator holds. */
  lemma AclMerged(m: map<string, map<int, Mapping>>, pa: seq<ACL>, na: seq<ACL>, a: ACL)
    requires AclsRealised(m, pa) && Distinct(pa, AclKey) && Distinct(na, AclKey) && a in na && Distinct(a.mapped, MappedKey)
    ensures var r := ApplyAcls(m, NewAcls(pa, na));
            && a.initiator in r && MappedHeld(r[a.initiator], a.mapped)
            && forall j | j in r[a.initiator] :: j in MappedIndices(a.mapped) || MappedLost(pa, na, a.initiator, j)
  {
    var news := NewAcls(pa, na);
    NewAclsDistinct(pa, na);
    ApplyAclsAt(m, news);
    FindAclIs(pa, a.initiator);
    FindAclAt(na, a);
    var was := FindAcl(pa, a.initiator);
    if was.None? {
      assert NewAcl(pa, a) == [a];
      NewAclsIs(pa, na, a);
      ApplyMappedAt(map[], a.mapped);
    } else {
      MappedMerged(m[a.initiator], was.value.mapped, a.mapped);
      var more := New(was.value.mapped, a.mapped);
      if more != [] {
        assert NewAcl(pa, a) == [ACL(a.initiator, more)];
        NewAclsIs(pa, na, ACL(a.initiator, more));
      } else {
        AclUntouched(pa, na, a);
      }
    }
  }

  lemma AclUntouched(pa: seq<ACL>, na: seq<ACL>, a: ACL)
    requires Distinct(na, AclKey) && a in na && NewAcl(pa, a) == []
    ensures a.initiator !in Initiators(NewAcls(pa, na))
  {
    forall x | x in NewAcls(pa, na) ensures x.initiator != a.initiator {
      NewAclsIs(pa, na, x);
      var y :| y in na && NewAcl(pa, y) == [x];
      if y.initiator == a.initiator {
        KeyUnique(na, AclKey, y, a);
      }
    }
  }

  lemma AclsMerged(m: map<string, map<int, Mapping>>, pa: seq<ACL>, na: seq<ACL>)
    requires AclsRealised(m, pa) && Distinct(pa, AclKey) && Distinct(na, AclKey)
    requires forall a | a in na :: Distinct(a.mapped, MappedKey)
    ensures var r := ApplyAcls(m, NewAcls(pa, na));
            && AclsHeld(r, na)
            && (forall a | a in r :: a in Initiators(na) || a in Initiators(pa))
            && (forall a, j | a in r && a in Initiators(na) && j in r[a] ::
                  MappedKept(na, a, j) || MappedLost(pa, na, a, j))
  {
    NewAclsDistinct(pa, na);
    ApplyAclsAt(m, NewAcls(pa, na));
    var r := ApplyAcls(m, NewAcls(pa, na));
    forall a | a in na
      ensures a.initiator in r && MappedHeld(r[a.initiator], a.mapped) && FindAcl(na, a.initiator) == Some(a)
      ensures forall j | j in r[a.initiator] :: j in MappedIndices(a.mapped) || MappedLost(pa, na, a.initiator, j)
    {
      AclMerged(m, pa, na, a);
      FindAclAt(na, a);
    }
  }

  ghost predicate MappedKept(na: seq<ACL>, a: string, j: int) {
    FindAcl(na, a).Some? && j in MappedIndices(FindAcl(na, a).value.mapped)
  }

  // ----- what is left to remove -----

  /** The node has everything ng asks for, and beyond that only what rm names. */
  ghost predicate NodeLeft(n: Node, p: Path, ng: TPG, names: map<string, Key>, rm: RemoveSet) {
    && NodeHeld(n, ng, names) && n.portals == (set q | q in ng.portals)
    && (forall i | i in n.luns :: i in LunIndices(ng.luns) || LunRef(p, i) in rm.luns)
    && (forall a | a in n.acls :: a in Initiators(ng.acls) || AclRef(p, a) in rm.acls)
    && (forall a, j | a in n.acls && j in n.acls[a] && a in Initiators(ng.acls) ::
          MappedKept(ng.acls, a, j) || MappedRef(p, a, j) in rm.mapped)
  }

  /** Whatever of pg is not in ng is on the list. */
  ghost predicate Listed(p: Path, pg: TPG, ng: TPG, rm: RemoveSet) {
    && (forall i | i in LunIndices(pg.luns) && i !in LunIndices(ng.luns) :: LunRef(p, i) in rm.luns)
    && (forall a | a in Initiators(pg.acls) && a !in Initiators(ng.acls) :: AclRef(p, a) in rm.acls)
    && (forall a, j | MappedLost(pg.acls, ng.acls, a, j) :: MappedRef(p, a, j) in rm.mapped)
  }

  lemma GoneListed(prev: Config, next: Config, rm: RemoveSet, p: Path, pg: TPG, ng: TPG)
    requires Removes(prev, next, rm) && DesiredTpg(prev.targets, p) == Some(pg) && DesiredTpg(next.targets, p) == Some(ng)
    ensures Listed(p, pg, ng, rm)
  {
    forall i | i in LunIndices(pg.luns) && i !in LunIndices(ng.luns) ensures LunRef(p, i) in rm.luns {
      assert LunGone(prev, next, LunRef(p, i));
    }
    forall a | a in Initiators(pg.acls) && a !in Initiators(ng.acls) ensures AclRef(p, a) in rm.acls {
      assert AclGone(prev, next, AclRef(p, a));
    }
    forall a, j | MappedLost(pg.acls, ng.acls, a, j) ensures MappedRef(p, a, j) in rm.mapped {
      assert MappedGone(prev, next, MappedRef(p, a, j));
    }
  }

  lemma NodeMerged(n: Node, p: Path, pg: TPG, ng: TPG, pn: map<string, Key>, an: map<string, Key>, nn: map<string, Key>, rm: RemoveSet)
    requires ValidTpg(pg, pn.Keys) && ValidTpg(ng, nn.Keys) && SameTpgShape(pg, ng)
    requires NodeRealised(n, pg, pn) && NamesAgree(pg, ng, pn, an, nn) && Resolved(New(pg.luns, ng.luns), an)
    requires Listed(p, pg, ng, rm)
    ensures NodeLeft(EnsureNode(n, NewTpg(pg, ng), an), p, ng, nn, rm)
  {
    LunsLeft(n.luns, p, pg, ng, pn, an, nn, rm);
    AclsLeft(n.acls, p, pg, ng, pn.Keys, nn.Keys, rm);
    PortalsLeft(n, pg, ng);
  }

  lemma PortalsLeft(n: Node, pg: TPG, ng: TPG)
    requires n.portals == (set q | q in pg.portals) && multiset(pg.portals) == multiset(ng.portals)
    ensures n.portals + (set q | q in NewTpg(pg, ng).portals) == set q | q in ng.portals
  {
    SamePortalSets(pg.portals, ng.portals);
    assert forall q :: q !in NewTpg(pg, ng).portals;
  }

  lemma LunsLeft(m: map<int, Option<Key>>, p: Path, pg: TPG, ng: TPG, pn: map<string, Key>, an: map<string, Key>, nn: map<string, Key>, rm: RemoveSet)
    requires LunsRealised(m, pg.luns, pn) && NamesAgree(pg, ng, pn, an, nn) && ValidTpg(ng, nn.Keys)
    requires Resolved(New(pg.luns, ng.luns), an) && Listed(p, pg, ng, rm)
    ensures var r := ApplyLuns(m, New(pg.luns, ng.luns), an);
            LunsHeld(r, ng.luns, nn) && forall i | i in r :: i in LunIndices(ng.luns) || LunRef(p, i) in rm.luns
  {
    LunsMerged(m, pg, ng, pn, an, nn);
  }

  lemma AclsLeft(m: map<string, map<int, Mapping>>, p: Path, pg: TPG, ng: TPG, pnames: set<string>, nnames: set<string>, rm: RemoveSet)
    requires ValidTpg(pg, pnames) && ValidTpg(ng, nnames) && AclsRealised(m, pg.acls) && Listed(p, pg, ng, rm)
    ensures var r := ApplyAcls(m, NewAcls(pg.acls, ng.acls));
            && AclsHeld(r, ng.acls)
            && (forall a | a in r :: a in Initiators(ng.acls) || AclRef(p, a) in rm.acls)
            && (forall a, j | a in r && j in r[a] && a in Initiators(ng.acls) :: MappedKept(ng.acls, a, j) || MappedRef(p, a, j) in rm.mapped)
  {
    AclsMerged(m, pg.acls, ng.acls);
  }

  lemma SamePortalSets(a: seq<Portal>, b: seq<Portal>)
    requires multiset(a) == multiset(b)
    ensures (set q | q in a) == set q | q in b
  {
    forall q ensures q in a <==> q in b {
      assert q in a <==> multiset(a)[q] > 0;
      assert q in b <==> multiset(b)[q] > 0;
    }
  }

  // ----- the tree between the two halves -----

  ghost predicate LeftAt(nodes: map<Path, Node>, c: Config, rm: RemoveSet, p: Path) {
    p in nodes ==> DesiredTpg(c.targets, p).Some? && NodeLeft(nodes[p], p, DesiredTpg(c.targets, p).value, KeyMap(c.backstores), rm)
  }

  /** Everything c asks for is in place, and beyond that only what rm names. */
  ghost predicate AllLeft(nodes: map<Path, Node>, c: Config, rm: RemoveSet) {
    nodes.Keys == PathsOf(c.targets) && forall p | p in nodes :: LeftAt(nodes, c, rm, p)
  }

  lemma DeltaNames(prev: Config, next: Config, d: Delta, p: Path, pg: TPG, ng: TPG)
    requires Valid(prev) && Valid(next) && IsDelta(prev, next, d)
    requires DesiredTpg(prev.targets, p) == Some(pg) && DesiredTpg(next.targets, p) == Some(ng)
    requires p in PathsOf(next.targets)
    ensures NamesAgree(pg, ng, KeyMap(prev.backstores), KeyMap(d.add.backstores), KeyMap(next.backstores))
    ensures Resolved(New(pg.luns, ng.luns), KeyMap(d.add.backstores))
  {
    WantedValid(prev, p);
    WantedValid(next, p);
    KeyMapAt(prev.backstores);
    KeyMapAt(next.backstores);
    forall l ensures l in New(pg.luns, ng.luns) <==> l in ng.luns && l !in pg.luns {
      NewIs(pg.luns, ng.luns, l);
    }
    forall l | l in ng.luns
      ensures l in pg.luns ==> KeyMap(prev.backstores)[l.backstore] == KeyMap(next.backstores)[l.backstore]
      ensures l !in pg.luns ==> l.backstore in KeyMap(d.add.backstores)
      ensures l !in pg.luns ==> KeyMap(d.add.backstores)[l.backstore] == KeyMap(next.backstores)[l.backstore]
    {
      if l in pg.luns {
        SameName(prev, next, l.backstore);
      } else {
        assert l in New(pg.luns, ng.luns);
        ChangedIsNew(prev, next, p);
        var t, g :| t in d.add.targets && g in t.tpgs && p == Path(t.iqn, g.tag);
        var pg', ng' := NewTpgAt(prev, next, t, g);
        DeltaResolved(prev, next, d, t, g, l);
        AddedName(prev, next, d.add, l.backstore);
      }
    }
  }

  /** The additive half, run on prev, leaves only the removals to do. */
  lemma MergedAt(n0: map<Path, Node>, n1: map<Path, Node>, prev: Config, next: Config, d: Delta, p: Path)
    requires Valid(prev) && Valid(next) && IsDelta(prev, next, d) && NodesRealised(n0, prev)
    requires TargetsResolved(d.add.targets, KeyMap(d.add.backstores))
    requires TargetsApplied(n0, n1, d.add.targets, KeyMap(d.add.backstores))
    requires p in PathsOf(next.targets)
    ensures p in n1 && LeftAt(n1, next, d.remove, p)
  {
    SamePaths(prev, next);
    RealisedAt(n0, prev, p);
    var pg, ng := DesiredTpg(prev.targets, p).value, DesiredTpg(next.targets, p).value;
    assert Exact(n0, prev, p);
    DeltaNames(prev, next, d, p, pg, ng);
    WantedValid(prev, p);
    WantedValid(next, p);
    GoneListed(prev, next, d.remove, p, pg, ng);
    NodeMerged(n0[p], p, pg, ng, KeyMap(prev.backstores), KeyMap(d.add.backstores), KeyMap(next.backstores), d.remove);
    if p in PathsOf(d.add.targets) {
      var t, g :| t in d.add.targets && g in t.tpgs && p == Path(t.iqn, g.tag);
      var pg', ng' := NewTpgAt(prev, next, t, g);
    } else {
      if TpgChanged(pg, ng) {
        ChangedIsNew(prev, next, p);
        assert false;
      }
      NothingNew(n0[p], pg, ng, KeyMap(d.add.backstores));
    }
  }

  lemma NothingNew(n: Node, pg: TPG, ng: TPG, names: map<string, Key>)
    requires !TpgChanged(pg, ng) && n.enable == ng.enable
    ensures EnsureNode(n, NewTpg(pg, ng), names) == n
  {
    assert n.portals + {} == n.portals;
  }

  lemma NewPaths(prev: Config, next: Config)
    requires Valid(prev) && Valid(next) && SameShape(prev, next)
    ensures PathsOf(NewTargets(prev.targets, next.targets)) <= PathsOf(next.targets)
  {
    var news := NewTargets(prev.targets, next.targets);
    forall p | p in PathsOf(news) ensures p in PathsOf(next.targets) {
      var t, g :| t in news && g in t.tpgs && p == Path(t.iqn, g.tag);
      var pg, ng := NewTpgAt(prev, next, t, g);
    }
  }

  lemma Merged(n0: map<Path, Node>, n1: map<Path, Node>, prev: Config, next: Config, d: Delta)
    requires Valid(prev) && Valid(next) && IsDelta(prev, next, d) && NodesRealised(n0, prev)
    requires TargetsResolved(d.add.targets, KeyMap(d.add.backstores))
    requires TargetsApplied(n0, n1, d.add.targets, KeyMap(d.add.backstores))
    ensures AllLeft(n1, next, d.remove)
  {
    SamePaths(prev, next);
    NewPaths(prev, next);
    forall p | p in n1 ensures LeftAt(n1, next, d.remove, p) {
      MergedAt(n0, n1, prev, next, d, p);
    }
  }

  // ----- applyRemovals -----

  /** Removals touch neither targets, objects, portals nor enable flags, and no link appears. */
  ghost predicate Trimmed(t0: Tree, t1: Tree) {
    && t1.targets == t0.targets && t1.objs == t0.objs
    && SameEnables(t0.nodes, t1.nodes) && Shrinks(t0.nodes, t1.nodes)
  }

  lemma TrimmedNode(t0: Tree, t1: Tree, t2: Tree, p: Path)
    requires Trimmed(t0, t1) && OnlyNode(t1, t2, p) && p in t1.nodes && t2.nodes[p].enable == t1.nodes[p].enable
    requires LunsShrink(t1.nodes[p].luns, t2.nodes[p].luns)
    ensures Trimmed(t0, t2)
  {
    NodeShrinks(t1, t2, p);
    ShrinksTrans(t0.nodes, t1.nodes, t2.nodes);
  }

  lemma LeftElsewhere(t0: Tree, t1: Tree, c: Config, rm: RemoveSet, rm': RemoveSet, p: Path)
    requires AllLeft(t0.nodes, c, rm) && OnlyNode(t0, t1, p) && p in t0.nodes && LeftAt(t1.nodes, c, rm', p)
    requires forall r | r in rm.mapped && r !in rm'.mapped :: r.p == p
    requires forall r | r in rm.acls && r !in rm'.acls :: r.p == p
    requires forall r | r in rm.luns && r !in rm'.luns :: r.p == p
    ensures AllLeft(t1.nodes, c, rm')
  {
    forall q | q in t1.nodes ensures LeftAt(t1.nodes, c, rm', q) {
      assert LeftAt(t0.nodes, c, rm, q);
    }
  }

  lemma MappedDropped(n0: Node, n1: Node, ng: TPG, names: map<string, Key>, rm: RemoveSet, r: MappedRef)
    requires ValidTpg(ng, names.Keys)
    requires NodeLeft(n0, r.p, ng, names, rm) && DropsMapping(n0, n1, r.a, r.j) && !HasMapped(n1, r.a, r.j)
    requires !MappedKept(ng.acls, r.a, r.j)
    ensures NodeLeft(n1, r.p, ng, names, rm.(mapped := rm.mapped - {r}))
  {
    forall a | a in ng.acls ensures a.initiator in n1.acls && MappedHeld(n1.acls[a.initiator], a.mapped) {
      FindAclAt(ng.acls, a);
    }
  }

  lemma AclDropped(n0: Node, n1: Node, ng: TPG, names: map<string, Key>, rm: RemoveSet, r: AclRef)
    requires NodeLeft(n0, r.p, ng, names, rm) && DropsAcls(n0, n1) && OthersKept(n0, n1, r.a) && r.a !in n1.acls
    requires r.a !in Initiators(ng.acls)
    ensures NodeLeft(n1, r.p, ng, names, rm.(acls := rm.acls - {r}))
  {
  }

  lemma LunDropped(n0: Node, n1: Node, ng: TPG, names: map<string, Key>, rm: RemoveSet, r: LunRef)
    requires NodeLeft(n0, r.p, ng, names, rm) && n1 == n0.(luns := n1.luns) && Dropped(n0.luns, n1.luns, {r.i}) && r.i !in n1.luns
    requires r.i !in LunIndices(ng.luns)
    ensures NodeLeft(n1, r.p, ng, names, rm.(luns := rm.luns - {r}))
  {
    forall l | l in ng.luns ensures LunHeld(n1.luns, l, names) {
      assert LunHeld(n0.luns, l, names);
    }
  }

  // One removal more, on a tree that was in order before it if good says so.

  lemma MappedNext(good: bool, t1: Tree, t2: Tree, c: Config, rm: RemoveSet, r: MappedRef)
    requires Valid(c) && r.p in t1.nodes && OnlyNode(t1, t2, r.p) && r in rm.mapped && (good ==> AllLeft(t1.nodes, c, rm))
    requires DesiredTpg(c.targets, r.p).Some? && !MappedKept(DesiredTpg(c.targets, r.p).value.acls, r.a, r.j)
    requires DropsMapping(t1.nodes[r.p], t2.nodes[r.p], r.a, r.j) && !HasMapped(t2.nodes[r.p], r.a, r.j)
    ensures good ==> AllLeft(t2.nodes, c, rm.(mapped := rm.mapped - {r}))
  {
    if good {
      assert LeftAt(t1.nodes, c, rm, r.p);
      WantedValid(c, r.p);
      MappedDropped(t1.nodes[r.p], t2.nodes[r.p], DesiredTpg(c.targets, r.p).value, KeyMap(c.backstores), rm, r);
      LeftElsewhere(t1, t2, c, rm, rm.(mapped := rm.mapped - {r}), r.p);
    }
  }

  lemma AclNext(good: bool, t1: Tree, t2: Tree, c: Config, rm: RemoveSet, r: AclRef)
    requires r.p in t1.nodes && OnlyNode(t1, t2, r.p) && r in rm.acls && (good ==> AllLeft(t1.nodes, c, rm))
    requires DesiredTpg(c.targets, r.p).Some? && r.a !in Initiators(DesiredTpg(c.targets, r.p).value.acls)
    requires DropsAcls(t1.nodes[r.p], t2.nodes[r.p]) && OthersKept(t1.nodes[r.p], t2.nodes[r.p], r.a) && r.a !in t2.nodes[r.p].acls
    ensures good ==> AllLeft(t2.nodes, c, rm.(acls := rm.acls - {r}))
  {
    if good {
      assert LeftAt(t1.nodes, c, rm, r.p);
      AclDropped(t1.nodes[r.p], t2.nodes[r.p], DesiredTpg(c.targets, r.p).value, KeyMap(c.backstores), rm, r);
      LeftElsewhere(t1, t2, c, rm, rm.(acls := rm.acls - {r}), r.p);
    }
  }

  lemma LunFree(good: bool, nodes: map<Path, Node>, c: Config, rm: RemoveSet, r: LunRef)
    requires Valid(c) && r.p in nodes && (good ==> AllLeft(nodes, c, rm) && rm.mapped == {} && rm.acls == {})
    requires DesiredTpg(c.targets, r.p).Some? && r.i !in LunIndices(DesiredTpg(c.targets, r.p).value.luns)
    ensures good ==> !Mapped(nodes[r.p].acls, r.i)
  {
    if good {
      assert LeftAt(nodes, c, rm, r.p);
      LunUnmapped(nodes, c, rm, r);
    }
  }

  lemma LunNext(good: bool, t1: Tree, t2: Tree, c: Config, rm: RemoveSet, r: LunRef)
    requires r.p in t1.nodes && OnlyNode(t1, t2, r.p) && r in rm.luns && (good ==> AllLeft(t1.nodes, c, rm))
    requires DesiredTpg(c.targets, r.p).Some? && r.i !in LunIndices(DesiredTpg(c.targets, r.p).value.luns)
    requires t2.nodes[r.p] == t1.nodes[r.p].(luns := t2.nodes[r.p].luns)
    requires Dropped(t1.nodes[r.p].luns, t2.nodes[r.p].luns, {r.i}) && r.i !in t2.nodes[r.p].luns
    ensures good ==> AllLeft(t2.nodes, c, rm.(luns := rm.luns - {r}))
  {
    if good {
      assert LeftAt(t1.nodes, c, rm, r.p);
      LunDropped(t1.nodes[r.p], t2.nodes[r.p], DesiredTpg(c.targets, r.p).value, KeyMap(c.backstores), rm, r);
      LeftElsewhere(t1, t2, c, rm, rm.(luns := rm.luns - {r}), r.p);
    }
  }

  method RemoveMappedRefs(fs: Configfs, todo: set<MappedRef>, ghost c: Config, ghost rm: RemoveSet, ghost good: bool)
    returns (err: Err)
    requires fs.Inv() && Valid(c) && rm.mapped == todo && forall r | r in todo :: r.p in fs.tree.nodes
    requires good ==> AllLeft(fs.tree.nodes, c, rm)
    requires forall r | r in todo ::
               DesiredTpg(c.targets, r.p).Some? && !MappedKept(DesiredTpg(c.targets, r.p).value.acls, r.a, r.j)
    modifies fs`tree, fs`writes
    ensures fs.Inv() && err in {Ok, Io, Inval} && Trimmed(old(fs.tree), fs.tree)
    ensures fs.faults || err !in {Io, Inval}
    ensures good && err == Ok ==> AllLeft(fs.tree.nodes, c, rm.(mapped := {}))
  {
    var rest := todo;
    err := Ok;
    while rest != {}
      invariant fs.Inv() && err == Ok && Trimmed(old(fs.tree), fs.tree) && rest <= todo
      invariant good ==> AllLeft(fs.tree.nodes, c, rm.(mapped := rest))
      decreases rest
    {
      var r := Pick(rest);
      ghost var t1 := fs.tree;
      err := RemoveMapped(fs, r.p, r.a, r.j);
      TrimmedNode(old(fs.tree), t1, fs.tree, r.p);
      if err != Ok { return; }
      MappedNext(good, t1, fs.tree, c, rm.(mapped := rest), r);
      rest := rest - {r};
    }
  }

  method RemoveAclRefs(fs: Configfs, todo: set<AclRef>, ghost c: Config, ghost rm: RemoveSet, ghost good: bool)
    returns (err: Err)
    requires fs.Inv() && rm.acls == todo && forall r | r in todo :: r.p in fs.tree.nodes
    requires good ==> AllLeft(fs.tree.nodes, c, rm)
    requires forall r | r in todo ::
               DesiredTpg(c.targets, r.p).Some? && r.a !in Initiators(DesiredTpg(c.targets, r.p).value.acls)
    modifies fs`tree, fs`writes
    ensures fs.Inv() && err in {Ok, Io, Inval} && Trimmed(old(fs.tree), fs.tree)
    ensures fs.faults || err !in {Io, Inval}
    ensures good && err == Ok ==> AllLeft(fs.tree.nodes, c, rm.(acls := {}))
  {
    var rest := todo;
    err := Ok;
    while rest != {}
      invariant fs.Inv() && err == Ok && Trimmed(old(fs.tree), fs.tree) && rest <= todo
      invariant good ==> AllLeft(fs.tree.nodes, c, rm.(acls := rest))
      decreases rest
    {
      var r := Pick(rest);
      ghost var t1 := fs.tree;
      err := RemoveAcl(fs, r.p, r.a);
      TrimmedNode(old(fs.tree), t1, fs.tree, r.p);
      if err != Ok { return; }
      AclNext(good, t1, fs.tree, c, rm.(acls := rest), r);
      rest := rest - {r};
    }
  }

  /** With the ACLs and mapped LUNs exact, nothing maps a LUN that goes away. */
  lemma LunUnmapped(nodes: map<Path, Node>, c: Config, rm: RemoveSet, r: LunRef)
    requires Valid(c) && r.p in nodes && LeftAt(nodes, c, rm, r.p) && rm.mapped == {} && rm.acls == {}
    requires DesiredTpg(c.targets, r.p).Some? && r.i !in LunIndices(DesiredTpg(c.targets, r.p).value.luns)
    ensures !Mapped(nodes[r.p].acls, r.i)
  {
    WantedValid(c, r.p);
    LeftAcls(nodes[r.p], r.p, DesiredTpg(c.targets, r.p).value, KeyMap(c.backstores), rm);
    MappedWanted(nodes[r.p], DesiredTpg(c.targets, r.p).value, KeyMap(c.backstores).Keys, r.i);
  }

  lemma LeftAcls(n: Node, p: Path, ng: TPG, names: map<string, Key>, rm: RemoveSet)
    requires ValidTpg(ng, names.Keys) && NodeLeft(n, p, ng, names, rm) && rm.mapped == {} && rm.acls == {}
    ensures AclsRealised(n.acls, ng.acls)
  {
    forall a | a in ng.acls ensures a.initiator in n.acls && MappedRealised(n.acls[a.initiator], a.mapped) {
      LeftAcl(n, p, ng, names, rm, a);
    }
  }

  lemma LeftAcl(n: Node, p: Path, ng: TPG, names: map<string, Key>, rm: RemoveSet, a: ACL)
    requires ValidTpg(ng, names.Keys) && NodeLeft(n, p, ng, names, rm) && rm.mapped == {} && a in ng.acls
    ensures a.initiator in n.acls && MappedRealised(n.acls[a.initiator], a.mapped)
  {
    FindAclAt(ng.acls, a);
    assert a.initiator in Initiators(ng.acls) && MappedHeld(n.acls[a.initiator], a.mapped);
    forall j | j in n.acls[a.initiator] ensures j in MappedIndices(a.mapped) {
      assert MappedKept(ng.acls, a.initiator, j);
    }
  }

  method RemoveLunRefs(fs: Configfs, todo: set<LunRef>, ghost c: Config, ghost rm: RemoveSet, ghost good: bool)
    returns (err: Err)
    requires fs.Inv() && Valid(c) && rm.luns == todo && forall r | r in todo :: r.p in fs.tree.nodes
    requires good ==> AllLeft(fs.tree.nodes, c, rm) && rm.mapped == {} && rm.acls == {}
    requires forall r | r in todo ::
               DesiredTpg(c.targets, r.p).Some? && r.i !in LunIndices(DesiredTpg(c.targets, r.p).value.luns)
    modifies fs`tree, fs`writes
    ensures fs.Inv() && err in {Ok, Io, Inval, Busy} && Trimmed(old(fs.tree), fs.tree) && (good ==> err != Busy)
    ensures fs.faults || err !in {Io, Inval}
    ensures good && err == Ok ==> AllLeft(fs.tree.nodes, c, rm.(luns := {}))
  {
    var rest := todo;
    err := Ok;
    while rest != {}
      invariant fs.Inv() && err == Ok && Trimmed(old(fs.tree), fs.tree) && rest <= todo
      invariant good ==> AllLeft(fs.tree.nodes, c, rm.(luns := rest))
      decreases rest
    {
      var r := Pick(rest);
      ghost var t1 := fs.tree;
      LunFree(good, t1.nodes, c, rm.(luns := rest), r);
      err := RemoveLun(fs, r.p, r.i);
      TrimmedNode(old(fs.tree), t1, fs.tree, r.p);
      if err != Ok { return; }
      LunNext(good, t1, fs.tree, c, rm.(luns := rest), r);
      rest := rest - {r};
    }
  }

  /** With nothing left to remove the nodes are exactly c. */
  lemma NothingLeft(nodes: map<Path, Node>, c: Config, rm: RemoveSet)
    requires Valid(c) && AllLeft(nodes, c, rm) && rm.mapped == {} && rm.acls == {} && rm.luns == {}
    ensures NodesRealised(nodes, c)
  {
    forall t, g | t in c.targets && g in t.tpgs
      ensures Path(t.iqn, g.tag) in nodes && NodeRealised(nodes[Path(t.iqn, g.tag)], g, KeyMap(c.backstores))
    {
      var p := Path(t.iqn, g.tag);
      assert p in PathsOf(c.targets);
      assert LeftAt(nodes, c, rm, p);
      DesiredTpgOnce(c, t, g);
      NodeNothingLeft(nodes, c, rm, p);
    }
  }

  lemma NodeNothingLeft(nodes: map<Path, Node>, c: Config, rm: RemoveSet, p: Path)
    requires Valid(c) && p in nodes && LeftAt(nodes, c, rm, p) && rm.mapped == {} && rm.acls == {} && rm.luns == {}
    ensures NodeRealised(nodes[p], DesiredTpg(c.targets, p).value, KeyMap(c.backstores))
  {
    WantedValid(c, p);
    LeftAcls(nodes[p], p, DesiredTpg(c.targets, p).value, KeyMap(c.backstores), rm);
    forall i | i in nodes[p].luns ensures i in LunIndices(DesiredTpg(c.targets, p).value.luns) {
      assert LunRef(p, i) !in rm.luns;
    }
  }

  method RemoveBackstoreRefs(fs: Configfs, todo: set<Key>, ghost c: Config, ghost good: bool) returns (err: Err)
    requires fs.Inv() && Valid(c) && (good ==> NodesRealised(fs.tree.nodes, c))
    requires forall k | k in todo :: k !in Keys(c.backstores)
    modifies fs`tree, fs`writes, fs`owed
    ensures fs.Inv() && err in {Ok, Io, Inval, Busy} && (good ==> err != Busy)
    ensures fs.faults || err !in {Io, Inval}
    ensures fs.tree.nodes == old(fs.tree).nodes && fs.tree.targets == old(fs.tree).targets
    ensures ObjsShrink(old(fs.tree).objs, fs.tree.objs)
    ensures forall k | k in old(fs.tree).objs && k !in todo :: k in fs.tree.objs && fs.tree.objs[k] == old(fs.tree).objs[k]
    ensures err == Ok ==> fs.tree.objs.Keys !! todo
  {
    ghost var t0 := fs.tree;
    var rest := todo;
    err := Ok;
    while rest != {}
      invariant fs.Inv() && err == Ok && rest <= todo
      invariant fs.tree.nodes == t0.nodes && fs.tree.targets == t0.targets && ObjsShrink(t0.objs, fs.tree.objs)
      invariant forall k | k in t0.objs && k !in todo :: k in fs.tree.objs && fs.tree.objs[k] == t0.objs[k]
      invariant fs.tree.objs.Keys !! (todo - rest)
      decreases rest
    {
      var k := Pick(rest);
      if good {
        LinksWanted(fs.tree, c, k);
      }
      err := RemoveBackstore(fs, k);
      if err != Ok { return; }
      rest := rest - {k};
    }
  }

  // ----- ApplyDelta -----

  /** checkScope (lio/delta.go:451-465): every TPG the desired config relies on is there. */
  method CheckScope(fs: Configfs, c: Config) returns (err: Err)
    ensures err in {Ok, Io, Stale}
    ensures fs.faults || err !in {Io, Inval}
    ensures err == Ok ==> PathsOf(c.targets) <= fs.tree.nodes.Keys
    ensures err == Stale ==> exists p :: p in PathsOf(c.targets) && p !in fs.tree.nodes
  {
    for i := 0 to |c.targets|
      invariant PathsOf(c.targets[..i]) <= fs.tree.nodes.Keys
    {
      var t := c.targets[i];
      PathsNext(c.targets, i);
      for j := 0 to |t.tpgs|
        invariant TagPaths(t.iqn, t.tpgs[..j]) <= fs.tree.nodes.Keys
      {
        TagPathsNext(t.iqn, t.tpgs, j, {});
        err := fs.Readable();
        if err != Ok { return; }
        if Path(t.iqn, t.tpgs[j].tag) !in fs.tree.nodes {
          assert t in c.targets && t.tpgs[j] in t.tpgs;
          return Stale;
        }
      }
      assert t.tpgs[..|t.tpgs|] == t.tpgs;
    }
    assert c.targets[..|c.targets|] == c.targets;
    err := Ok;
  }

  /** Every removal names something under a TPG of next, which next does not want. */
  lemma RemovalsUnwanted(prev: Config, next: Config, rm: RemoveSet)
    requires Valid(next) && Removes(prev, next, rm)
    ensures forall r | r in rm.mapped ::
              && r.p in PathsOf(next.targets) && DesiredTpg(next.targets, r.p).Some?
              && !MappedKept(DesiredTpg(next.targets, r.p).value.acls, r.a, r.j)
    ensures forall r | r in rm.acls ::
              && r.p in PathsOf(next.targets) && DesiredTpg(next.targets, r.p).Some?
              && r.a !in Initiators(DesiredTpg(next.targets, r.p).value.acls)
    ensures forall r | r in rm.luns ::
              && r.p in PathsOf(next.targets) && DesiredTpg(next.targets, r.p).Some?
              && r.i !in LunIndices(DesiredTpg(next.targets, r.p).value.luns)
  {
    PathsWanted(next);
  }

  /** applyRemovals: mapped LUNs, ACLs, LUNs, backstores (lio/delta.go:468-493). */
  method ApplyRemovals(fs: Configfs, rm: RemoveSet, ghost prev: Config, ghost next: Config, ghost good: bool) returns (err: Err)
    requires fs.Inv() && Valid(next) && Removes(prev, next, rm) && PathsOf(next.targets) <= fs.tree.nodes.Keys
    requires good ==> AllLeft(fs.tree.nodes, next, rm)
    modifies fs`tree, fs`writes, fs`owed
    ensures fs.Inv() && err in {Ok, Io, Inval, Busy} && (good ==> err != Busy)
    ensures fs.faults || err !in {Io, Inval}
    ensures fs.tree.targets == old(fs.tree).targets && SameEnables(old(fs.tree).nodes, fs.tree.nodes)
    ensures Shrinks(old(fs.tree).nodes, fs.tree.nodes)
    ensures ObjsShrink(old(fs.tree).objs, fs.tree.objs)
    ensures forall k | k in old(fs.tree).objs && k !in rm.backstores :: k in fs.tree.objs && fs.tree.objs[k] == old(fs.tree).objs[k]
    ensures err == Ok ==> fs.tree.objs.Keys !! rm.backstores
    ensures good && err == Ok ==> NodesRealised(fs.tree.nodes, next)
  {
    RemovalsUnwanted(prev, next, rm);
    err := RemoveMappedRefs(fs, rm.mapped, next, rm, good);
    if err != Ok { return; }
    err := RemoveAclRefs(fs, rm.acls, next, rm.(mapped := {}), good);
    if err != Ok { return; }
    err := RemoveLunRefs(fs, rm.luns, next, rm.(mapped := {}, acls := {}), good);
    if err != Ok { return; }
    if good {
      NothingLeft(fs.tree.nodes, next, rm.(mapped := {}, acls := {}, luns := {}));
    }
    err := RemoveBackstoreRefs(fs, rm.backstores, next, good);
  }

  lemma DeltaEnables(nodes: map<Path, Node>, prev: Config, next: Config, d: Delta)
    requires Valid(prev) && Valid(next) && IsDelta(prev, next, d) && NodesRealised(nodes, prev)
    ensures TargetsEnabled(nodes, d.add.targets)
  {
    SamePaths(prev, next);
    forall t, g | t in d.add.targets && g in t.tpgs
      ensures Path(t.iqn, g.tag) in nodes && nodes[Path(t.iqn, g.tag)].enable == g.enable
    {
      var pg, ng := NewTpgAt(prev, next, t, g);
      RealisedAt(nodes, prev, Path(t.iqn, g.tag));
    }
  }

  lemma DeltaClear(nodes: map<Path, Node>, prev: Config, next: Config, d: Delta)
    requires Valid(prev) && Valid(next) && IsDelta(prev, next, d) && NoClash(nodes, next)
    ensures TargetsClear(nodes, d.add.targets, KeyMap(d.add.backstores))
  {
    forall t, g, l | t in d.add.targets && g in t.tpgs && l in g.luns
      ensures LunClear(NodeAt(nodes, Path(t.iqn, g.tag)).luns, l, KeyMap(d.add.backstores))
    {
      DeltaLun(prev, next, d, t, g, l);
      var p := Path(t.iqn, g.tag);
      assert l.index in NodeAt(nodes, p).luns ==> LinkAt(nodes, p, l.index) == NodeAt(nodes, p).luns[l.index];
    }
  }

  lemma DeltaReady(nodes: map<Path, Node>, prev: Config, next: Config, d: Delta)
    requires Valid(prev) && Valid(next) && IsDelta(prev, next, d)
    ensures TargetsReady(nodes, d.add.targets)
  {
    forall t, g | t in d.add.targets && g in t.tpgs ensures g.portals == [] {
      var pg, ng := NewTpgAt(prev, next, t, g);
    }
  }

  /** Every mapped LUN the delta adds leads to a LUN it adds too or that is there already. */
  lemma DeltaWired(nodes: map<Path, Node>, prev: Config, next: Config, d: Delta)
    requires Valid(prev) && Valid(next) && IsDelta(prev, next, d) && NodesRealised(nodes, prev)
    ensures TargetsWired(nodes, d.add.targets)
  {
    SamePaths(prev, next);
    forall t, g | t in d.add.targets && g in t.tpgs ensures TpgWired(g, NodeAt(nodes, Path(t.iqn, g.tag))) {
      var pg, ng := NewTpgAt(prev, next, t, g);
      RealisedAt(nodes, prev, Path(t.iqn, g.tag));
      assert NodeAt(nodes, Path(t.iqn, g.tag)).luns.Keys == LunIndices(pg.luns);
      WantedValid(next, Path(t.iqn, g.tag));
      NewWired(pg, ng);
    }
  }

  lemma NewWired(pg: TPG, ng: TPG)
    requires AclsWired(ng.acls, LunIndices(ng.luns))
    ensures AclsWired(NewAcls(pg.acls, ng.acls), LunIndices(pg.luns) + LunIndices(New(pg.luns, ng.luns)))
  {
    forall l | l in ng.luns ensures l.index in LunIndices(pg.luns) + LunIndices(New(pg.luns, ng.luns)) {
      NewIs(pg.luns, ng.luns, l);
    }
    forall a, m | a in NewAcls(pg.acls, ng.acls) && m in a.mapped
      ensures m.tpgLun in LunIndices(pg.luns) + LunIndices(New(pg.luns, ng.luns))
    {
      var x := NewAclsKeep(pg.acls, ng.acls, a, m);
      assert m.tpgLun in LunIndices(ng.luns);
    }
  }

  lemma {:induction false} NewAclsKeep(pa: seq<ACL>, na: seq<ACL>, a: ACL, m: MappedLUN) returns (x: ACL)
    requires a in NewAcls(pa, na) && m in a.mapped
    ensures x in na && m in x.mapped
  {
    x := na[|na| - 1];
    if a in NewAcls(pa, na[..|na| - 1]) {
      x := NewAclsKeep(pa, na[..|na| - 1], a, m);
    } else if FindAcl(pa, x.initiator).Some? {
      NewIs(FindAcl(pa, x.initiator).value.mapped, x.mapped, m);
    }
  }

  lemma AddedFrom(o0: map<Key, Obj>, o1: map<Key, Obj>, add: seq<Backstore>, next: seq<Backstore>, records: map<Key, seq<string>>)
    requires ObjsFrom(o0, o1, add, records) && forall b | b in add :: b in next
    ensures ObjsFrom(o0, o1, next, records)
  {
  }

  lemma DeltaSafe(nodes: map<Path, Node>, prev: Config, next: Config, d: Delta)
    requires Valid(prev) && Valid(next) && IsDelta(prev, next, d)
    ensures NoClash(nodes, next) ==> TargetsClear(nodes, d.add.targets, KeyMap(d.add.backstores))
    ensures NodesRealised(nodes, prev) ==> TargetsEnabled(nodes, d.add.targets) && TargetsWired(nodes, d.add.targets)
  {
    if NoClash(nodes, next) {
      DeltaClear(nodes, prev, next, d);
    }
    if NodesRealised(nodes, prev) {
      DeltaEnables(nodes, prev, next, d);
      DeltaWired(nodes, prev, next, d);
    }
  }

  /** The additive half of ApplyDelta (lio/delta.go:418-435). */
  method ApplyAdd(fs: Configfs, d: Delta, records: map<Key, seq<string>>, ghost prev: Config, ghost next: Config)
    returns (err: Err, drift: seq<Drift>)
    requires fs.Inv() && Valid(prev) && Valid(next) && IsDelta(prev, next, d)
    modifies fs`tree, fs`writes, fs`repoints, fs`owed
    ensures fs.Inv() && err in {Ok, Io, Inval, Invalid, Incompatible}
    ensures NodesRealised(old(fs.tree).nodes, prev) && AllServable(d.add.backstores, old(fs.tree), records) ==> fs.faults || err == Ok
    ensures Counted(old(fs.tree).nodes, fs.tree.nodes, old(fs.repoints), fs.repoints)
    ensures Toward(old(fs.tree).nodes, fs.tree.nodes, next)
    ensures NoClash(old(fs.tree).nodes, next) ==> fs.repoints == old(fs.repoints)
    ensures OnlyObjs(old(fs.tree), fs.tree.(nodes := old(fs.tree).nodes, targets := old(fs.tree).targets), Keys(d.add.backstores))
    ensures ObjsFrom(old(fs.tree).objs, fs.tree.objs, next.backstores, records)
    ensures NodesRealised(old(fs.tree).nodes, prev) ==> SameEnables(old(fs.tree).nodes, fs.tree.nodes)
    ensures err == Ok ==> fs.tree.objs.Keys == old(fs.tree).objs.Keys + Keys(d.add.backstores)
    ensures err == Ok ==> fs.tree.targets == old(fs.tree).targets + Iqns(d.add.targets)
    ensures err == Ok ==> BackstoresDone(fs.tree.objs, d.add.backstores, drift) && Named(drift, Names(d.add.backstores))
    ensures err == Ok ==> TargetsResolved(d.add.targets, KeyMap(d.add.backstores))
    ensures err == Ok ==> TargetsApplied(old(fs.tree).nodes, fs.tree.nodes, d.add.targets, KeyMap(d.add.backstores))
  {
    DeltaFits(prev, next, d);
    DeltaReady(fs.tree.nodes, prev, next, d);
    DeltaSafe(fs.tree.nodes, prev, next, d);
    err, drift := EnsureBackstores(fs, d.add.backstores, records);
    CountedSame(old(fs.tree).nodes, fs.tree.nodes, fs.repoints);
    AddedFrom(old(fs.tree).objs, fs.tree.objs, d.add.backstores, next.backstores, records);
    if err != Ok { return; }
    DoneNamesLive(fs.tree.objs, d.add.backstores, drift);
    err := EnsureTargets(fs, d.add.targets, KeyMap(d.add.backstores), next);
  }

  /** The objects an ApplyDelta run does not rewrite. */
  ghost predicate OthersAsWere(t0: Tree, t1: Tree, prev: Config, next: Config, d: Delta) {
    forall k | k in t0.objs && k !in Keys(d.add.backstores) && !(k in Keys(prev.backstores) && k !in Keys(next.backstores)) ::
      k in t1.objs && t1.objs[k] == t0.objs[k]
  }

  lemma MergedIf(good: bool, n0: map<Path, Node>, n1: map<Path, Node>, prev: Config, next: Config, d: Delta)
    requires Valid(prev) && Valid(next) && IsDelta(prev, next, d) && (good ==> NodesRealised(n0, prev))
    requires TargetsResolved(d.add.targets, KeyMap(d.add.backstores))
    requires TargetsApplied(n0, n1, d.add.targets, KeyMap(d.add.backstores))
    ensures good ==> AllLeft(n1, next, d.remove)
  {
    if good {
      Merged(n0, n1, prev, next, d);
    }
  }

  /** Both halves, on a tree that has every TPG of next. */
  method ApplyScoped(fs: Configfs, next: Config, d: Delta, records: map<Key, seq<string>>, ghost prev: Config)
    returns (err: Err, drift: seq<Drift>)
    requires fs.Inv() && Valid(prev) && Valid(next) && IsDelta(prev, next, d) && PathsOf(next.targets) <= fs.tree.nodes.Keys
    modifies fs`tree, fs`writes, fs`repoints, fs`owed
    ensures fs.Inv() && err in {Ok, Io, Inval, Invalid, Incompatible, Busy}
    ensures Realised(old(fs.tree), prev) && AllServable(d.add.backstores, old(fs.tree), records) ==> fs.faults || err == Ok
    ensures MovesCounted(old(fs.tree).nodes, fs.tree.nodes, old(fs.repoints), fs.repoints)
    ensures Toward(old(fs.tree).nodes, fs.tree.nodes, next)
    ensures NoClash(old(fs.tree).nodes, next) ==> fs.repoints == old(fs.repoints)
    ensures Realised(old(fs.tree), prev) ==> err != Busy && SameEnables(old(fs.tree).nodes, fs.tree.nodes)
    ensures Realised(old(fs.tree), prev) && err == Ok ==> Realised(fs.tree, next)
    ensures err == Ok ==> BackstoresDone(fs.tree.objs, d.add.backstores, drift) && Named(drift, Names(d.add.backstores))
    ensures OthersAsWere(old(fs.tree), fs.tree, prev, next, d) && ObjsFrom(old(fs.tree).objs, fs.tree.objs, next.backstores, records)
  {
    ghost var t0, good := fs.tree, Realised(fs.tree, prev);
    err, drift := ApplyAdd(fs, d, records, prev, next);
    CountedMoves(t0.nodes, fs.tree.nodes, old(fs.repoints), fs.repoints);
    if err == Ok {
      MergedIf(good, t0.nodes, fs.tree.nodes, prev, next, d);
      err := ApplyRest(fs, next, d, prev, t0, good, drift, records, old(fs.repoints));
    }
    HalfTogether(t0, fs.tree, prev, next, d);
  }

  /** Objects after the additive half alone. */
  lemma HalfTogether(t0: Tree, t1: Tree, prev: Config, next: Config, d: Delta)
    ensures OnlyObjs(t0, t1.(nodes := t0.nodes, targets := t0.targets), Keys(d.add.backstores)) ==> OthersAsWere(t0, t1, prev, next, d)
  {
  }

  /** The removals, and what both halves come to. */
  method ApplyRest(fs: Configfs, next: Config, d: Delta, ghost prev: Config, ghost t0: Tree, ghost good: bool, ghost drift: seq<Drift>,
                   ghost records: map<Key, seq<string>>, ghost r0: nat)
    returns (err: Err)
    requires fs.Inv() && Valid(prev) && Valid(next) && IsDelta(prev, next, d) && PathsOf(next.targets) <= fs.tree.nodes.Keys
    requires good ==> Realised(t0, prev) && AllLeft(fs.tree.nodes, next, d.remove)
    requires Toward(t0.nodes, fs.tree.nodes, next) && ObjsFrom(t0.objs, fs.tree.objs, next.backstores, records)
    requires Counted(t0.nodes, fs.tree.nodes, r0, fs.repoints)
    requires OnlyObjs(t0, fs.tree.(nodes := t0.nodes, targets := t0.targets), Keys(d.add.backstores))
    requires fs.tree.objs.Keys == t0.objs.Keys + Keys(d.add.backstores) && fs.tree.targets == t0.targets + Iqns(d.add.targets)
    requires BackstoresDone(fs.tree.objs, d.add.backstores, drift) && (good ==> SameEnables(t0.nodes, fs.tree.nodes))
    modifies fs`tree, fs`writes, fs`owed
    ensures fs.Inv() && err in {Ok, Io, Inval, Busy} && (good ==> err != Busy && SameEnables(t0.nodes, fs.tree.nodes))
    ensures fs.faults || err !in {Io, Inval}
    ensures Toward(t0.nodes, fs.tree.nodes, next) && ObjsFrom(t0.objs, fs.tree.objs, next.backstores, records)
    ensures MovesCounted(t0.nodes, fs.tree.nodes, r0, fs.repoints)
    ensures OthersAsWere(t0, fs.tree, prev, next, d) && BackstoresDone(fs.tree.objs, d.add.backstores, drift)
    ensures good && err == Ok ==> Realised(fs.tree, next)
  {
    ghost var t1 := fs.tree;
    err := ApplyRemovals(fs, d.remove, prev, next, good);
    TowardThenShrinks(t0.nodes, t1.nodes, fs.tree.nodes, next);
    CountedThenShrinks(t0.nodes, t1.nodes, fs.tree.nodes, r0, fs.repoints);
    ObjsFromShrink(t0.objs, t1.objs, fs.tree.objs, next.backstores, records);
    HalvesTogether(t0, t1, fs.tree, prev, next, d);
    AddedStay(t1, fs.tree, prev, next, d, drift);
    RealisedIf(good && err == Ok, t0, t1, fs.tree, prev, next, d, drift);
  }

  lemma RealisedIf(good: bool, t0: Tree, t1: Tree, t2: Tree, prev: Config, next: Config, d: Delta, drift: seq<Drift>)
    requires good ==> Valid(prev) && Valid(next) && IsDelta(prev, next, d) && Realised(t0, prev)
    requires good ==> OnlyObjs(t0, t1.(nodes := t0.nodes, targets := t0.targets), Keys(d.add.backstores))
    requires good ==> t1.objs.Keys == t0.objs.Keys + Keys(d.add.backstores) && t1.targets == t0.targets + Iqns(d.add.targets)
    requires good ==> BackstoresDone(t1.objs, d.add.backstores, drift)
    requires good ==> ObjsShrink(t1.objs, t2.objs) && t2.objs.Keys !! d.remove.backstores
    requires good ==> forall k | k in t1.objs && k !in d.remove.backstores :: k in t2.objs && t2.objs[k] == t1.objs[k]
    requires good ==> t2.targets == t1.targets && NodesRealised(t2.nodes, next)
    ensures good ==> Realised(t2, next)
  {
    if good {
      DeltaRealised(t0, t1, t2, prev, next, d, drift);
    }
  }

  /** ApplyDelta.  Run on any tree whose topology is prev, it meets no live reference, no
      unknown backstore and no refused bind, changes no enable flag, and on success leaves
      exactly the topology of next, which is what Sync(next) leaves. */
  method ApplyDelta(fs: Configfs, next: Config, d: Delta, records: map<Key, seq<string>>, ghost prev: Config)
    returns (err: Err, drift: seq<Drift>)
    requires fs.Inv() && Valid(prev) && Valid(next) && IsDelta(prev, next, d)
    modifies fs`tree, fs`writes, fs`repoints, fs`owed
    ensures fs.Inv() && err in {Ok, Io, Inval, Invalid, Incompatible, Busy, Stale}
    // without faults, on the tree of prev and with nothing in the way of a backstore, it succeeds
    ensures Realised(old(fs.tree), prev) && AllServable(d.add.backstores, old(fs.tree), records) ==> fs.faults || err == Ok
    ensures MovesCounted(old(fs.tree).nodes, fs.tree.nodes, old(fs.repoints), fs.repoints)
    ensures err == Ok ==> PathsOf(next.targets) <= old(fs.tree).nodes.Keys
    ensures err == Stale ==> fs.tree == old(fs.tree)
    ensures Toward(old(fs.tree).nodes, fs.tree.nodes, next)
    ensures NoClash(old(fs.tree).nodes, next) ==> fs.repoints == old(fs.repoints)
    ensures Realised(old(fs.tree), prev) ==> err !in {Busy, Stale} && SameEnables(old(fs.tree).nodes, fs.tree.nodes)
    ensures Realised(old(fs.tree), prev) && err == Ok ==> Realised(fs.tree, next)
    ensures err == Ok ==> BackstoresDone(fs.tree.objs, d.add.backstores, drift) && Named(drift, Names(d.add.backstores))
    ensures OthersAsWere(old(fs.tree), fs.tree, prev, next, d) && ObjsFrom(old(fs.tree).objs, fs.tree.objs, next.backstores, records)
  {
    SamePaths(prev, next);
    drift := [];
    err := CheckScope(fs, next);
    if err != Ok { return; }
    err, drift := ApplyScoped(fs, next, d, records, prev);
  }

  lemma HalvesTogether(t0: Tree, t1: Tree, t2: Tree, prev: Config, next: Config, d: Delta)
    requires Removes(prev, next, d.remove)
    requires OnlyObjs(t0, t1.(nodes := t0.nodes, targets := t0.targets), Keys(d.add.backstores))
    requires forall k | k in t1.objs && k !in d.remove.backstores :: k in t2.objs && t2.objs[k] == t1.objs[k]
    ensures OthersAsWere(t0, t2, prev, next, d)
    ensures SameEnables(t0.nodes, t1.nodes) && SameEnables(t1.nodes, t2.nodes) ==> SameEnables(t0.nodes, t2.nodes)
  {
  }

  lemma AddedStay(t1: Tree, t2: Tree, prev: Config, next: Config, d: Delta, drift: seq<Drift>)
    requires IsDelta(prev, next, d) && BackstoresDone(t1.objs, d.add.backstores, drift)
    requires forall k | k in t1.objs && k !in d.remove.backstores :: k in t2.objs && t2.objs[k] == t1.objs[k]
    ensures BackstoresDone(t2.objs, d.add.backstores, drift)
  {
    forall b | b in d.add.backstores ensures b.key !in d.remove.backstores {
      assert b in next.backstores;
    }
  }

  lemma DeltaObjects(t0: Tree, t1: Tree, t2: Tree, prev: Config, next: Config, d: Delta)
    requires IsDelta(prev, next, d) && t0.objs.Keys == Keys(prev.backstores)
    requires t1.objs.Keys == t0.objs.Keys + Keys(d.add.backstores)
    requires ObjsShrink(t1.objs, t2.objs) && t2.objs.Keys !! d.remove.backstores
    requires forall k | k in t1.objs && k !in d.remove.backstores :: k in t2.objs && t2.objs[k] == t1.objs[k]
    ensures t2.objs.Keys == Keys(next.backstores)
  {
    forall b | b in next.backstores ensures b.key in t2.objs {
      assert b in prev.backstores || b in d.add.backstores;
    }
    forall k | k in t2.objs ensures k in Keys(next.backstores) {
      assert k !in d.remove.backstores;
    }
  }

  lemma DeltaIqns(prev: Config, next: Config)
    requires Valid(prev) && Valid(next) && SameShape(prev, next)
    ensures Iqns(prev.targets) + Iqns(NewTargets(prev.targets, next.targets)) == Iqns(next.targets)
  {
    SameIqns(prev, next);
    NewTargetsDistinct(prev.targets, next.targets);
  }

  lemma DeltaRealised(t0: Tree, t1: Tree, t2: Tree, prev: Config, next: Config, d: Delta, drift: seq<Drift>)
    requires Valid(prev) && Valid(next) && IsDelta(prev, next, d) && Realised(t0, prev)
    requires OnlyObjs(t0, t1.(nodes := t0.nodes, targets := t0.targets), Keys(d.add.backstores))
    requires t1.objs.Keys == t0.objs.Keys + Keys(d.add.backstores) && t1.targets == t0.targets + Iqns(d.add.targets)
    requires BackstoresDone(t1.objs, d.add.backstores, drift)
    requires ObjsShrink(t1.objs, t2.objs) && t2.objs.Keys !! d.remove.backstores
    requires forall k | k in t1.objs && k !in d.remove.backstores :: k in t2.objs && t2.objs[k] == t1.objs[k]
    requires t2.targets == t1.targets && NodesRealised(t2.nodes, next)
    ensures Realised(t2, next)
  {
    DeltaIqns(prev, next);
    DeltaObjects(t0, t1, t2, prev, next, d);
    forall k | k in t2.objs ensures t2.objs[k].enabled {
      assert k in t1.objs && t1.objs[k].enabled;
    }
  }

  /** The fast path refines the slow one: on a tree that is prev, Diff and ApplyDelta end with
      the topology a Sync of next would have left, from any tree at all. */
  method DeltaLikeSync(fast: Configfs, slow: Configfs, prev: Config, next: Config, records: map<Key, seq<string>>)
    returns (ok: bool, err: Err, full: Err)
    requires fast != slow && fast.Inv() && slow.Inv() && Valid(prev) && Valid(next) && Realised(fast.tree, prev)
    modifies fast, slow
    ensures fast.Inv() && slow.Inv() && (ok <==> Expressible(prev, next))
    ensures ok && err == Ok && full == Ok ==> SameTopology(slow.tree, fast.tree)
  {
    var d, drift;
    d, ok := DiffConfigs(prev, next);
    err, full := Ok, Ok;
    if ok {
      err, drift := ApplyDelta(fast, next, d, records, prev);
      full, drift := SyncConfig(slow, next, records);
      if err == Ok && full == Ok {
        RealisedOnce(slow.tree, fast.tree, next);
      }
    }
  }
}
