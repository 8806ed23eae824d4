/** Diff (lio/delta.go:116-304): the incremental change from one config to another. */
module Diff {
  import opened LioConfig
  import opened Kernel
  import opened Topology
  import opened Sync
  import opened Ensure

  datatype MappedRef = MappedRef(p: Path, a: string, j: int)
  datatype AclRef = AclRef(p: Path, a: string)
  datatype LunRef = LunRef(p: Path, i: int)
  /** What goes away.  The lists are filled by ranging over maps, so nothing depends on
      their order and they are sets here. */
  datatype RemoveSet = RemoveSet(mapped: set<MappedRef>, acls: set<AclRef>, luns: set<LunRef>, backstores: set<Key>)
  datatype Delta = Delta(add: Config, remove: RemoveSet)

  // ----- what a delta must say -----

  /** The records of next that prev does not have, in next's order. */
  function New<T(==)>(prev: seq<T>, next: seq<T>): seq<T> {
    if next == [] then []
    else
      var last := next[|next| - 1];
      New(prev, next[..|next| - 1]) + (if last in prev then [] else [last])
  }

  /** What to add for a, given the ACL of its initiator before. */
  function NewAclFrom(was: Option<ACL>, a: ACL): seq<ACL> {
    if was.None? then [a]
    else
      var more := New(was.value.mapped, a.mapped);
      if more == [] then [] else [ACL(a.initiator, more)]
  }

  function NewAcl(prev: seq<ACL>, a: ACL): seq<ACL> {
    NewAclFrom(FindAcl(prev, a.initiator), a)
  }

  function NewAcls(prev: seq<ACL>, next: seq<ACL>): seq<ACL> {
    if next == [] then [] else NewAcls(prev, next[..|next| - 1]) + NewAcl(prev, next[|next| - 1])
  }

  /** The TPG an additive pass is given: only what changed, no portals, and the enable flag carried. */
  function NewTpg(pg: TPG, ng: TPG): TPG {
    TPG(ng.tag, ng.enable, [], New(pg.luns, ng.luns), NewAcls(pg.acls, ng.acls), map[])
  }

  predicate TpgChanged(pg: TPG, ng: TPG) {
    New(pg.luns, ng.luns) != [] || NewAcls(pg.acls, ng.acls) != []
  }

  function NewTpgs(prev: seq<TPG>, next: seq<TPG>): seq<TPG> {
    if next == [] then []
    else
      var ng := next[|next| - 1];
      var pg := FindTag(prev, ng.tag);
      NewTpgs(prev, next[..|next| - 1]) + (if pg.Some? && TpgChanged(pg.value, ng) then [NewTpg(pg.value, ng)] else [])
  }

  function FindTarget(ts: seq<Target>, iqn: string): Option<Target> {
    if ts == [] then None else if ts[0].iqn == iqn then Some(ts[0]) else FindTarget(ts[1..], iqn)
  }

  function NewTargets(prev: seq<Target>, next: seq<Target>): seq<Target> {
    if next == [] then []
    else
      var nt := next[|next| - 1];
      var pt := FindTarget(prev, nt.iqn);
      var gs := if pt.Some? then NewTpgs(pt.value.tpgs, nt.tpgs) else [];
      NewTargets(prev, next[..|next| - 1]) + (if gs == [] then [] else [Target(nt.iqn, gs)])
  }

  /** Structure a delta does not attempt: the two TPGs differ in more than LUNs and ACLs. */
  predicate SameTpgShape(pg: TPG, ng: TPG) {
    pg.enable == ng.enable && pg.attrs == ng.attrs && multiset(pg.portals) == multiset(ng.portals)
  }

  predicate SameTargetShape(pt: Target, nt: Target) {
    && |pt.tpgs| == |nt.tpgs|
    && forall ng | ng in nt.tpgs :: FindTag(pt.tpgs, ng.tag).Some? && SameTpgShape(FindTag(pt.tpgs, ng.tag).value, ng)
  }

  /** prev has a target of that name and shape. */
  predicate HasLike(prev: seq<Target>, nt: Target) {
    FindTarget(prev, nt.iqn).Some? && SameTargetShape(FindTarget(prev, nt.iqn).value, nt)
  }

  predicate AllLike(prev: seq<Target>, next: seq<Target>) {
    next == [] || (AllLike(prev, next[..|next| - 1]) && HasLike(prev, next[|next| - 1]))
  }

  predicate SameShape(prev: Config, next: Config) {
    |prev.targets| == |next.targets| && AllLike(prev.targets, next.targets)
  }

  lemma {:induction false} AllLikeAt(prev: seq<Target>, next: seq<Target>)
    ensures AllLike(prev, next) <==> forall t | t in next :: HasLike(prev, t)
  {
    if next != [] {
      assert next == next[..|next| - 1] + [next[|next| - 1]];
      AllLikeAt(prev, next[..|next| - 1]);
    }
  }

  lemma {:induction false} AllLikePrefix(prev: seq<Target>, next: seq<Target>, i: nat)
    requires i <= |next|
    ensures AllLike(prev, next) ==> AllLike(prev, next[..i])
  {
    if i < |next| {
      assert next[..|next| - 1][..i] == next[..i];
      AllLikePrefix(prev, next[..|next| - 1], i);
    } else {
      assert next[..i] == next;
    }
  }

  lemma AllLikeNext(prev: seq<Target>, next: seq<Target>, i: nat)
    requires i < |next|
    ensures AllLike(prev, next[..i + 1]) <==> AllLike(prev, next[..i]) && HasLike(prev, next[i])
    ensures AllLike(prev, next) ==> AllLike(prev, next[..i + 1])
  {
    assert next[..i + 1][..i] == next[..i];
    AllLikePrefix(prev, next, i + 1);
  }

  /** movedIdentity: a name that kept its name but changed plugin or HBA. */
  predicate Moved(prev: seq<Backstore>, b: Backstore) {
    exists p | p in prev :: p.key.name == b.key.name && p.key != b.key
  }

  predicate Expressible(prev: Config, next: Config) {
    (forall b | b in next.backstores :: !Moved(prev.backstores, b)) && SameShape(prev, next)
  }

  // ----- what is gone -----

  ghost predicate LunGone(prev: Config, next: Config, r: LunRef) {
    var pg, ng := DesiredTpg(prev.targets, r.p), DesiredTpg(next.targets, r.p);
    pg.Some? && ng.Some? && r.i in LunIndices(pg.value.luns) && r.i !in LunIndices(ng.value.luns)
  }

  ghost predicate AclGone(prev: Config, next: Config, r: AclRef) {
    var pg, ng := DesiredTpg(prev.targets, r.p), DesiredTpg(next.targets, r.p);
    pg.Some? && ng.Some? && r.a in Initiators(pg.value.acls) && r.a !in Initiators(ng.value.acls)
  }

  ghost predicate MappedGone(prev: Config, next: Config, r: MappedRef) {
    var pg, ng := DesiredTpg(prev.targets, r.p), DesiredTpg(next.targets, r.p);
    && pg.Some? && ng.Some?
    && FindAcl(pg.value.acls, r.a).Some? && FindAcl(ng.value.acls, r.a).Some?
    && r.j in MappedIndices(FindAcl(pg.value.acls, r.a).value.mapped)
    && r.j !in MappedIndices(FindAcl(ng.value.acls, r.a).value.mapped)
  }

  ghost predicate Removes(prev: Config, next: Config, rm: RemoveSet) {
    && (forall r :: r in rm.mapped <==> MappedGone(prev, next, r))
    && (forall r :: r in rm.acls <==> AclGone(prev, next, r))
    && (forall r :: r in rm.luns <==> LunGone(prev, next, r))
    && (forall k :: k in rm.backstores <==> k in Keys(prev.backstores) && k !in Keys(next.backstores))
  }

  ghost predicate Uses(luns: seq<LUN>, name: string) {
    exists l :: l in luns && l.backstore == name
  }

  ghost predicate TpgsUse(gs: seq<TPG>, name: string) {
    exists g :: g in gs && Uses(g.luns, name)
  }

  ghost predicate TargetsUse(ts: seq<Target>, name: string) {
    exists t :: t in ts && TpgsUse(t.tpgs, name)
  }

  /** The backstores of a delta: the changed ones and those its LUNs name, nothing twice. */
  ghost predicate AddsBackstores(prev: Config, next: Config, add: Config) {
    && (forall b | b in add.backstores :: b in next.backstores)
    && (forall b | b in next.backstores ::
          b in add.backstores <==> b !in prev.backstores || TargetsUse(add.targets, b.key.name))
    && (forall i, j :: 0 <= i < j < |add.backstores| ==> add.backstores[i].key.name != add.backstores[j].key.name)
  }

  /** d is the delta from prev to next. */
  ghost predicate IsDelta(prev: Config, next: Config, d: Delta) {
    && Expressible(prev, next)
    && d.add.targets == NewTargets(prev.targets, next.targets)
    && AddsBackstores(prev, next, d.add)
    && Removes(prev, next, d.remove)
  }

  // ----- lists with a key -----

  ghost predicate Distinct<T, K>(s: seq<T>, key: T -> K) {
    forall i, j :: 0 <= i < j < |s| ==> key(s[i]) != key(s[j])
  }

  ghost function KeysOf<T, K>(s: seq<T>, key: T -> K): set<K> {
    set i | 0 <= i < |s| :: key(s[i])
  }

  lemma KeyUnique<T, K>(s: seq<T>, key: T -> K, x: T, y: T)
    requires Distinct(s, key) && x in s && y in s && key(x) == key(y)
    ensures x == y
  {
    var i :| 0 <= i < |s| && s[i] == x;
    var j :| 0 <= j < |s| && s[j] == y;
  }

  /** Distinct keys: as many keys as elements. */
  lemma {:induction false} KeysCount<T, K>(s: seq<T>, key: T -> K)
    requires Distinct(s, key)
    ensures |KeysOf(s, key)| == |s|
  {
    if s != [] {
      var init := s[..|s| - 1];
      KeysCount(init, key);
      var last := key(s[|s| - 1]);
      forall k ensures k in KeysOf(s, key) <==> k in KeysOf(init, key) + {last} {
        assert forall i | 0 <= i < |init| :: s[i] == init[i];
      }
      assert last !in KeysOf(init, key);
      assert KeysOf(s, key) == KeysOf(init, key) + {last};
    }
  }

  lemma {:induction false} SubsetCount<K>(a: set<K>, b: set<K>)
    requires a <= b && |a| == |b|
    ensures a == b
  {
    if x :| x in b && x !in a {
      SubsetCardinality(a, b - {x});
    }
  }

  lemma {:induction false} SubsetCardinality<K>(a: set<K>, b: set<K>)
    requires a <= b
    ensures |a| <= |b|
  {
    if x :| x in a {
      SubsetCardinality(a - {x}, b - {x});
    }
  }

  /** A list as a map from its keys, the way every level of Diff indexes prev. */
  method Index<T, K(==)>(s: seq<T>, key: T -> K) returns (m: map<K, T>)
    requires Distinct(s, key)
    ensures m.Keys == KeysOf(s, key)
    ensures forall x | x in s :: key(x) in m && m[key(x)] == x
    ensures forall k | k in m :: m[k] in s && key(m[k]) == k
  {
    m := map[];
    for i := 0 to |s|
      invariant m.Keys == KeysOf(s[..i], key)
      invariant forall j | 0 <= j < i :: key(s[j]) in m && m[key(s[j])] == s[j]
      invariant forall k | k in m :: m[k] in s && key(m[k]) == k
    {
      m := m[key(s[i]) := s[i]];
    }
    assert s[..|s|] == s;
  }

  lemma NewNext<T>(prev: seq<T>, next: seq<T>, i: nat)
    requires i < |next|
    ensures New(prev, next[..i + 1]) == New(prev, next[..i]) + (if next[i] in prev then [] else [next[i]])
  {
    assert next[..i + 1][..i] == next[..i];
  }

  lemma {:induction false} NewIs<T>(prev: seq<T>, next: seq<T>, x: T)
    ensures x in New(prev, next) <==> x in next && x !in prev
  {
    if next != [] {
      var init := next[..|next| - 1];
      assert next == init + [next[|next| - 1]];
      NewIs(prev, init, x);
    }
  }

  lemma {:induction false} NewDistinct<T, K>(prev: seq<T>, next: seq<T>, key: T -> K)
    requires Distinct(next, key)
    ensures Distinct(New(prev, next), key)
  {
    if next != [] {
      var init := next[..|next| - 1];
      NewDistinct(prev, init, key);
      forall j | 0 <= j < |New(prev, init)|
        ensures key(New(prev, init)[j]) != key(next[|next| - 1])
      {
        var x := New(prev, init)[j];
        NewIs(prev, init, x);
        var k :| 0 <= k < |init| && init[k] == x;
      }
    }
  }

  /** The loop every level shares: what is new or changed, and the keys that went away. */
  method DiffList<T(==), K>(prev: seq<T>, next: seq<T>, key: T -> K) returns (add: seq<T>, gone: set<K>)
    requires Distinct(prev, key)
    ensures add == New(prev, next)
    ensures gone == KeysOf(prev, key) - KeysOf(next, key)
  {
    var old' := Index(prev, key);
    var seen: set<K> := {};
    add := [];
    for i := 0 to |next|
      invariant add == New(prev, next[..i])
      invariant seen == KeysOf(next[..i], key)
    {
      var x := next[i];
      NewNext(prev, next, i);
      seen := seen + {key(x)};
      if key(x) !in old' || old'[key(x)] != x {
        add := add + [x];
      }
    }
    assert next[..|next|] == next;
    gone := old'.Keys - seen;
  }

  // ----- Diff, level by level -----

  function LunKey(l: LUN): int { l.index }
  function MappedKey(m: MappedLUN): int { m.index }
  function AclKey(a: ACL): string { a.initiator }
  function TagKey(g: TPG): int { g.tag }
  function IqnKey(t: Target): string { t.iqn }
  function NameKey(b: Backstore): string { b.key.name }
  function IdKey(b: Backstore): Key { b.key }

  lemma KeyedSets(luns: seq<LUN>, ms: seq<MappedLUN>, acls: seq<ACL>, bs: seq<Backstore>)
    ensures KeysOf(luns, LunKey) == LunIndices(luns) && KeysOf(ms, MappedKey) == MappedIndices(ms)
    ensures KeysOf(acls, AclKey) == Initiators(acls) && KeysOf(bs, IdKey) == Keys(bs)
  {
    forall l | l in luns ensures l.index in KeysOf(luns, LunKey) {
      var i :| 0 <= i < |luns| && luns[i] == l;
    }
    forall m | m in ms ensures m.index in KeysOf(ms, MappedKey) {
      var i :| 0 <= i < |ms| && ms[i] == m;
    }
    forall a | a in acls ensures a.initiator in KeysOf(acls, AclKey) {
      var i :| 0 <= i < |acls| && acls[i] == a;
    }
    forall b | b in bs ensures b.key in KeysOf(bs, IdKey) {
      var i :| 0 <= i < |bs| && bs[i] == b;
    }
  }

  lemma FindAclAt(acls: seq<ACL>, x: ACL)
    requires Distinct(acls, AclKey) && x in acls
    ensures FindAcl(acls, x.initiator) == Some(x)
  {
    FindAclIs(acls, x.initiator);
    KeyUnique(acls, AclKey, x, FindAcl(acls, x.initiator).value);
  }

  /** Mapped LUN j of ACL a is in pa and not in na, and both have the ACL. */
  ghost predicate MappedLost(pa: seq<ACL>, na: seq<ACL>, a: string, j: int) {
    && FindAcl(pa, a).Some? && FindAcl(na, a).Some?
    && j in MappedIndices(FindAcl(pa, a).value.mapped)
    && j !in MappedIndices(FindAcl(na, a).value.mapped)
  }

  /** One ACL of diffTPG (lio/delta.go:268-296): was is the ACL of that initiator before. */
  method DiffAcl(p: Path, was: Option<ACL>, a: ACL) returns (add: seq<ACL>, mapped: set<MappedRef>)
    requires was.Some? ==> Distinct(was.value.mapped, MappedKey)
    ensures add == NewAclFrom(was, a)
    ensures forall r :: r in mapped <==> r.p == p && r.a == a.initiator && was.Some? &&
                                         r.j in MappedIndices(was.value.mapped) && r.j !in MappedIndices(a.mapped)
  {
    if was.None? {
      return [a], {};
    }
    var more, lost := DiffList(was.value.mapped, a.mapped, MappedKey);
    KeyedSets([], was.value.mapped, [], []);
    KeyedSets([], a.mapped, [], []);
    mapped := set j | j in lost :: MappedRef(p, a.initiator, j);
    add := if more == [] then [] else [ACL(a.initiator, more)];
  }

  /** The mapped LUNs lost by the initiators seen so far. */
  ghost predicate MappedUnder(p: Path, pa: seq<ACL>, na: seq<ACL>, seen: set<string>, mapped: set<MappedRef>) {
    forall r :: r in mapped <==> r.p == p && r.a in seen && MappedLost(pa, na, r.a, r.j)
  }

  lemma MappedUnderNext(p: Path, pa: seq<ACL>, na: seq<ACL>, seen: set<string>, mapped: set<MappedRef>, a: ACL, lost: set<MappedRef>)
    requires MappedUnder(p, pa, na, seen, mapped) && FindAcl(na, a.initiator) == Some(a)
    requires var was := FindAcl(pa, a.initiator);
             forall r :: r in lost <==> r.p == p && r.a == a.initiator && was.Some? &&
                                        r.j in MappedIndices(was.value.mapped) && r.j !in MappedIndices(a.mapped)
    ensures MappedUnder(p, pa, na, seen + {a.initiator}, mapped + lost)
  {
  }

  /** The ACL loop of diffTPG (lio/delta.go:262-302). */
  method DiffAcls(p: Path, pa: seq<ACL>, na: seq<ACL>) returns (add: seq<ACL>, mapped: set<MappedRef>, gone: set<string>)
    requires Distinct(pa, AclKey) && Distinct(na, AclKey)
    requires forall a | a in pa :: Distinct(a.mapped, MappedKey)
    ensures add == NewAcls(pa, na)
    ensures forall r :: r in mapped <==> r.p == p && MappedLost(pa, na, r.a, r.j)
    ensures gone == Initiators(pa) - Initiators(na)
  {
    var old' := Index(pa, AclKey);
    var seen: set<string> := {};
    add, mapped := [], {};
    for i := 0 to |na|
      invariant add == NewAcls(pa, na[..i])
      invariant seen == KeysOf(na[..i], AclKey)
      invariant MappedUnder(p, pa, na, seen, mapped)
    {
      var a := na[i];
      var was := if a.initiator in old' then Some(old'[a.initiator]) else None;
      FoundAcl(pa, old', a.initiator);
      FindAclAt(na, a);
      var more, lost := DiffAcl(p, was, a);
      NewAclsNext(pa, na, i);
      MappedUnderNext(p, pa, na, seen, mapped, a, lost);
      add, mapped, seen := add + more, mapped + lost, seen + {a.initiator};
    }
    assert na[..|na|] == na;
    KeyedSets([], [], pa, []);
    KeyedSets([], [], na, []);
    gone := old'.Keys - seen;
    forall r: MappedRef | MappedLost(pa, na, r.a, r.j) ensures r.a in seen {
      FindAclIs(na, r.a);
    }
  }

  lemma FoundAcl(pa: seq<ACL>, m: map<string, ACL>, a: string)
    requires Distinct(pa, AclKey)
    requires forall x | x in pa :: x.initiator in m && m[x.initiator] == x
    requires forall k | k in m :: m[k] in pa && m[k].initiator == k
    ensures FindAcl(pa, a) == if a in m then Some(m[a]) else None
  {
    FindAclIs(pa, a);
    if a in m {
      FindAclAt(pa, m[a]);
    }
  }

  lemma NewAclsNext(pa: seq<ACL>, na: seq<ACL>, i: nat)
    requires i < |na|
    ensures NewAcls(pa, na[..i + 1]) == NewAcls(pa, na[..i]) + NewAcl(pa, na[i])
  {
    assert na[..i + 1][..i] == na[..i];
  }

  /** The removals of one TPG are put on the list. */
  ghost predicate TpgRemoves(p: Path, pg: TPG, ng: TPG, before: RemoveSet, after: RemoveSet) {
    && (forall r :: r in after.mapped <==> r in before.mapped || (r.p == p && MappedLost(pg.acls, ng.acls, r.a, r.j)))
    && (forall r :: r in after.acls <==>
                    r in before.acls || (r.p == p && r.a in Initiators(pg.acls) && r.a !in Initiators(ng.acls)))
    && (forall r :: r in after.luns <==>
                    r in before.luns || (r.p == p && r.i in LunIndices(pg.luns) && r.i !in LunIndices(ng.luns)))
    && after.backstores == before.backstores
  }

  /** diffTPG (lio/delta.go:240-304). */
  method DiffTpg(p: Path, pg: TPG, ng: TPG, rm: RemoveSet, ghost pn: set<string>, ghost nn: set<string>)
    returns (out: TPG, changed: bool, rm': RemoveSet)
    requires ValidTpg(pg, pn) && ValidTpg(ng, nn)
    ensures out == NewTpg(pg, ng) && changed == TpgChanged(pg, ng) && TpgRemoves(p, pg, ng, rm, rm')
  {
    var luns, lost := DiffList(pg.luns, ng.luns, LunKey);
    var acls, mapped, gone := DiffAcls(p, pg.acls, ng.acls);
    KeyedSets(pg.luns, [], [], []);
    KeyedSets(ng.luns, [], [], []);
    out := TPG(ng.tag, ng.enable, [], luns, acls, map[]);
    changed := luns != [] || acls != [];
    rm' := RemoveSet(rm.mapped + mapped, rm.acls + (set a | a in gone :: AclRef(p, a)),
                     rm.luns + (set i | i in lost :: LunRef(p, i)), rm.backstores);
  }

  /** Everything gone under the paths looked at so far is on the list, and nothing else. */
  ghost predicate RemovesUnder(prev: Config, next: Config, rm: RemoveSet, done: set<Path>) {
    ListedUnder(prev, next, rm, done) == true // carried whole, not clause by clause
  }

  ghost predicate ListedUnder(prev: Config, next: Config, rm: RemoveSet, done: set<Path>) {
    && (forall r :: r in rm.mapped <==> r.p in done && MappedGone(prev, next, r))
    && (forall r :: r in rm.acls <==> r.p in done && AclGone(prev, next, r))
    && (forall r :: r in rm.luns <==> r.p in done && LunGone(prev, next, r))
  }

  lemma RemovesNext(prev: Config, next: Config, p: Path, pg: TPG, ng: TPG, before: RemoveSet, after: RemoveSet, done: set<Path>)
    requires RemovesUnder(prev, next, before, done) && TpgRemoves(p, pg, ng, before, after)
    requires DesiredTpg(prev.targets, p) == Some(pg) && DesiredTpg(next.targets, p) == Some(ng)
    ensures RemovesUnder(prev, next, after, done + {p})
  {
  }

  lemma FindTagAt(gs: seq<TPG>, g: TPG)
    requires Distinct(gs, TagKey) && g in gs
    ensures FindTag(gs, g.tag) == Some(g)
  {
    FindTagIs(gs, g.tag);
    KeyUnique(gs, TagKey, g, FindTag(gs, g.tag).value);
  }

  lemma {:induction false} FindTargetIs(ts: seq<Target>, iqn: string)
    ensures FindTarget(ts, iqn).Some? ==> FindTarget(ts, iqn).value in ts && FindTarget(ts, iqn).value.iqn == iqn
    ensures FindTarget(ts, iqn).None? ==> forall t | t in ts :: t.iqn != iqn
  {
    if ts != [] {
      FindTargetIs(ts[1..], iqn);
    }
  }

  lemma FindTargetAt(ts: seq<Target>, t: Target)
    requires Distinct(ts, IqnKey) && t in ts
    ensures FindTarget(ts, t.iqn) == Some(t)
  {
    FindTargetIs(ts, t.iqn);
    KeyUnique(ts, IqnKey, t, FindTarget(ts, t.iqn).value);
  }

  lemma FoundTag(gs: seq<TPG>, m: map<int, TPG>, tag: int)
    requires Distinct(gs, TagKey)
    requires forall g | g in gs :: g.tag in m && m[g.tag] == g
    requires forall k | k in m :: m[k] in gs && m[k].tag == k
    ensures FindTag(gs, tag) == if tag in m then Some(m[tag]) else None
  {
    FindTagIs(gs, tag);
    if tag in m {
      FindTagAt(gs, m[tag]);
    }
  }

  lemma FoundTarget(ts: seq<Target>, m: map<string, Target>, iqn: string)
    requires Distinct(ts, IqnKey)
    requires forall t | t in ts :: t.iqn in m && m[t.iqn] == t
    requires forall k | k in m :: m[k] in ts && m[k].iqn == k
    ensures FindTarget(ts, iqn) == if iqn in m then Some(m[iqn]) else None
  {
    FindTargetIs(ts, iqn);
    if iqn in m {
      FindTargetAt(ts, m[iqn]);
    }
  }

  function Tally(seen: map<Portal, int>, p: Portal): int {
    if p in seen then seen[p] else 0
  }

  lemma CountNext(s: seq<Portal>, i: nat)
    requires i < |s|
    ensures forall p :: multiset(s[..i + 1])[p] == multiset(s[..i])[p] + (if p == s[i] then 1 else 0)
  {
    assert s[..i + 1] == s[..i] + [s[i]];
  }

  /** samePortals (lio/delta.go:348-365): equal counts of every portal. */
  method SamePortals(a: seq<Portal>, b: seq<Portal>) returns (same: bool)
    ensures same <==> multiset(a) == multiset(b)
  {
    if |a| != |b| {
      assert |multiset(a)| != |multiset(b)|;
      return false;
    }
    var seen: map<Portal, int> := map[];
    for i := 0 to |a|
      invariant forall p :: Tally(seen, p) == multiset(a[..i])[p]
    {
      CountNext(a, i);
      var next := seen[a[i] := Tally(seen, a[i]) + 1];
      assert forall p :: Tally(next, p) == Tally(seen, p) + (if p == a[i] then 1 else 0);
      seen := next;
    }
    assert a[..|a|] == a;
    for i := 0 to |b|
      invariant forall p :: Tally(seen, p) + multiset(b[..i])[p] == multiset(a)[p]
    {
      CountNext(b, i);
      seen := seen[b[i] := Tally(seen, b[i]) - 1];
    }
    assert b[..|b|] == b;
    same := forall p | p in seen :: seen[p] == 0;
    SameTally(seen, a, b);
  }

  lemma SameTally(seen: map<Portal, int>, a: seq<Portal>, b: seq<Portal>)
    requires forall p :: Tally(seen, p) + multiset(b)[p] == multiset(a)[p]
    ensures (forall p | p in seen :: seen[p] == 0) <==> multiset(a) == multiset(b)
  {
    if multiset(a) == multiset(b) {
      forall p | p in seen ensures seen[p] == 0 {
        assert Tally(seen, p) + multiset(b)[p] == multiset(a)[p];
      }
    }
  }

  /** sameStringMap (lio/delta.go:329-346): presence, not just value. */
  method SameStringMap(a: map<string, string>, b: map<string, string>) returns (same: bool)
    ensures same <==> a == b
  {
    if |a| != |b| {
      return false;
    }
    var rest := a.Keys;
    while rest != {}
      invariant rest <= a.Keys && forall k | k in a && k !in rest :: k in b && b[k] == a[k]
      decreases |rest|
    {
      var k :| k in rest;
      if k !in b || b[k] != a[k] {
        return false;
      }
      rest := rest - {k};
    }
    assert |a.Keys| == |b.Keys|;
    SubsetCount(a.Keys, b.Keys);
    return true;
  }

  lemma NewTpgsNext(prev: seq<TPG>, next: seq<TPG>, i: nat)
    requires i < |next|
    ensures var ng := next[i];
            var pg := FindTag(prev, ng.tag);
            NewTpgs(prev, next[..i + 1]) ==
            NewTpgs(prev, next[..i]) + (if pg.Some? && TpgChanged(pg.value, ng) then [NewTpg(pg.value, ng)] else [])
  {
    assert next[..i + 1][..i] == next[..i];
  }

  lemma NewTargetsNext(prev: seq<Target>, next: seq<Target>, i: nat)
    requires i < |next|
    ensures var pt := FindTarget(prev, next[i].iqn);
            var gs := if pt.Some? then NewTpgs(pt.value.tpgs, next[i].tpgs) else [];
            NewTargets(prev, next[..i + 1]) ==
            NewTargets(prev, next[..i]) + (if gs == [] then [] else [Target(next[i].iqn, gs)])
  {
    assert next[..i + 1][..i] == next[..i];
  }

  ghost function TagPaths(iqn: string, gs: seq<TPG>): set<Path> {
    set g | g in gs :: Path(iqn, g.tag)
  }

  /** diffTPG for a TPG both configs have, on top of the paths already done. */
  method DiffUnder(ghost pt: Target, pg: TPG, nt: Target, ng: TPG, rm: RemoveSet, ghost prev: Config, ghost next: Config, ghost done: set<Path>)
    returns (out: TPG, changed: bool, rm': RemoveSet)
    requires Valid(prev) && Valid(next) && pt in prev.targets && nt in next.targets && pt.iqn == nt.iqn
    requires pg in pt.tpgs && ng in nt.tpgs && pg.tag == ng.tag && RemovesUnder(prev, next, rm, done)
    ensures out == NewTpg(pg, ng) && changed == TpgChanged(pg, ng) && rm'.backstores == rm.backstores
    ensures RemovesUnder(prev, next, rm', done + {Path(nt.iqn, ng.tag)})
  {
    var p := Path(nt.iqn, ng.tag);
    DesiredTpgOnce(prev, pt, pg);
    DesiredTpgOnce(next, nt, ng);
    out, changed, rm' := DiffTpg(p, pg, ng, rm, Names(prev.backstores), Names(next.backstores));
    RemovesNext(prev, next, p, pg, ng, rm, rm', done);
  }

  /** One TPG of a target, against the TPG of that tag in prev: nothing, or what to add. */
  method DiffFoundTpg(had: map<int, TPG>, pt: Target, nt: Target, ng: TPG, rm: RemoveSet, ghost prev: Config, ghost next: Config, ghost done: set<Path>)
    returns (ok: bool, add: seq<TPG>, rm': RemoveSet)
    requires Valid(prev) && Valid(next) && pt in prev.targets && nt in next.targets && pt.iqn == nt.iqn && ng in nt.tpgs
    requires RemovesUnder(prev, next, rm, done)
    requires forall g | g in pt.tpgs :: g.tag in had && had[g.tag] == g
    requires forall k | k in had :: had[k] in pt.tpgs && had[k].tag == k
    ensures ok <==> FindTag(pt.tpgs, ng.tag).Some? && SameTpgShape(FindTag(pt.tpgs, ng.tag).value, ng)
    ensures ok ==> var pg := FindTag(pt.tpgs, ng.tag).value;
                   add == (if TpgChanged(pg, ng) then [NewTpg(pg, ng)] else []) && rm'.backstores == rm.backstores
    ensures ok ==> RemovesUnder(prev, next, rm', done + {Path(nt.iqn, ng.tag)})
  {
    FoundTag(pt.tpgs, had, ng.tag);
    if ng.tag !in had {
      return false, [], rm;
    }
    ok := SameLooks(had[ng.tag], ng);
    if !ok {
      return false, [], rm;
    }
    var more, changed;
    more, changed, rm' := DiffUnder(pt, had[ng.tag], nt, ng, rm, prev, next, done);
    add := if changed then [more] else [];
  }

  /** The TPG loop of Diff for one target (lio/delta.go:161-183). */
  method DiffTarget(pt: Target, nt: Target, rm: RemoveSet, ghost prev: Config, ghost next: Config, ghost done: set<Path>)
    returns (ok: bool, add: seq<TPG>, rm': RemoveSet)
    requires Valid(prev) && Valid(next) && pt in prev.targets && nt in next.targets && pt.iqn == nt.iqn
    requires RemovesUnder(prev, next, rm, done)
    ensures ok <==> SameTargetShape(pt, nt)
    ensures ok ==> add == NewTpgs(pt.tpgs, nt.tpgs) && rm'.backstores == rm.backstores
    ensures ok ==> RemovesUnder(prev, next, rm', done + TagPaths(nt.iqn, nt.tpgs))
  {
    ok, add, rm' := true, [], rm;
    if |pt.tpgs| != |nt.tpgs| {
      return false, [], rm;
    }
    var old' := Index(pt.tpgs, TagKey);
    for i := 0 to |nt.tpgs|
      invariant forall g | g in nt.tpgs[..i] :: FindTag(pt.tpgs, g.tag).Some? && SameTpgShape(FindTag(pt.tpgs, g.tag).value, g)
      invariant add == NewTpgs(pt.tpgs, nt.tpgs[..i]) && rm'.backstores == rm.backstores
      invariant RemovesUnder(prev, next, rm', done + TagPaths(nt.iqn, nt.tpgs[..i]))
    {
      TagPathsNext(nt.iqn, nt.tpgs, i, done);
      NewTpgsNext(pt.tpgs, nt.tpgs, i);
      var more;
      ok, more, rm' := DiffFoundTpg(old', pt, nt, nt.tpgs[i], rm', prev, next, done + TagPaths(nt.iqn, nt.tpgs[..i]));
      if !ok {
        return false, [], rm;
      }
      add := add + more;
    }
    assert nt.tpgs[..|nt.tpgs|] == nt.tpgs;
  }

  lemma TagPathsNext(iqn: string, gs: seq<TPG>, i: nat, done: set<Path>)
    requires i < |gs|
    ensures done + TagPaths(iqn, gs[..i + 1]) == done + TagPaths(iqn, gs[..i]) + {Path(iqn, gs[i].tag)}
    ensures forall g :: g in gs[..i + 1] <==> g in gs[..i] || g == gs[i]
  {
    assert gs[..i + 1] == gs[..i] + [gs[i]];
  }

  method SameLooks(pg: TPG, ng: TPG) returns (same: bool)
    ensures same <==> SameTpgShape(pg, ng)
  {
    if pg.enable != ng.enable {
      return false;
    }
    same := SameStringMap(pg.attrs, ng.attrs);
    if same {
      same := SamePortals(pg.portals, ng.portals);
    }
  }

  /** movedIdentity (lio/delta.go:308-315). */
  method MovedIdentity(prev: map<Key, Backstore>, b: Backstore) returns (moved: bool)
    ensures moved <==> exists k | k in prev :: prev[k].key.name == b.key.name && k != b.key
  {
    var rest := prev.Keys;
    while rest != {}
      invariant rest <= prev.Keys && forall k | k in prev && k !in rest :: !(prev[k].key.name == b.key.name && k != b.key)
      decreases |rest|
    {
      var k :| k in rest;
      if prev[k].key.name == b.key.name && k != b.key {
        return true;
      }
      rest := rest - {k};
    }
    return false;
  }

  /** The backstore half of Diff (lio/delta.go:120-149). */
  method DiffBackstores(prev: seq<Backstore>, next: seq<Backstore>) returns (ok: bool, add: seq<Backstore>, gone: set<Key>)
    requires Distinct(prev, IdKey)
    ensures ok <==> forall b | b in next :: !Moved(prev, b)
    ensures ok ==> add == New(prev, next) && gone == Keys(prev) - Keys(next)
  {
    add, gone := DiffList(prev, next, IdKey);
    KeyedSets([], [], [], prev);
    KeyedSets([], [], [], next);
    var old' := Index(prev, IdKey);
    for i := 0 to |next|
      invariant forall b | b in next[..i] :: !Moved(prev, b)
    {
      var moved := MovedIdentity(old', next[i]);
      assert moved <==> Moved(prev, next[i]);
      if moved {
        return false, [], {};
      }
      TakeNext(next, i);
    }
    assert next[..|next|] == next;
    ok := true;
  }

  lemma {:induction false} NewTargetsRefs(prev: seq<Target>, next: seq<Target>, t: Target, g: TPG)
    requires t in NewTargets(prev, next) && g in t.tpgs
    ensures exists nt, ng :: nt in next && nt.iqn == t.iqn && FindTarget(prev, t.iqn).Some? && ng in nt.tpgs &&
                             FindTag(FindTarget(prev, t.iqn).value.tpgs, ng.tag).Some? &&
                             g == NewTpg(FindTag(FindTarget(prev, t.iqn).value.tpgs, ng.tag).value, ng)
  {
    var init, nt := next[..|next| - 1], next[|next| - 1];
    assert next == init + [nt];
    if t in NewTargets(prev, init) {
      NewTargetsRefs(prev, init, t, g);
    } else {
      NewTpgsRefs(FindTarget(prev, t.iqn).value.tpgs, nt.tpgs, g);
    }
  }

  lemma {:induction false} NewTpgsRefs(prev: seq<TPG>, next: seq<TPG>, g: TPG)
    requires g in NewTpgs(prev, next)
    ensures exists ng :: ng in next && FindTag(prev, ng.tag).Some? && g == NewTpg(FindTag(prev, ng.tag).value, ng)
  {
    var init, ng := next[..|next| - 1], next[|next| - 1];
    assert next == init + [ng];
    if g in NewTpgs(prev, init) {
      NewTpgsRefs(prev, init, g);
    }
  }

  lemma NewLunsNamed(prev: Config, next: Config, t: Target, g: TPG, l: LUN)
    requires Valid(next) && t in NewTargets(prev.targets, next.targets) && g in t.tpgs && l in g.luns
    ensures l.backstore in Names(next.backstores)
  {
    NewTargetsRefs(prev.targets, next.targets, t, g);
    var nt, ng :| nt in next.targets && nt.iqn == t.iqn && FindTarget(prev.targets, t.iqn).Some? && ng in nt.tpgs &&
                  FindTag(FindTarget(prev.targets, t.iqn).value.tpgs, ng.tag).Some? &&
                  g == NewTpg(FindTag(FindTarget(prev.targets, t.iqn).value.tpgs, ng.tag).value, ng);
    NewIs(FindTag(FindTarget(prev.targets, t.iqn).value.tpgs, ng.tag).value.luns, ng.luns, l);
  }

  // ----- pulling in what the LUNs of a delta name -----

  ghost function LunNames(luns: seq<LUN>): iset<string> { iset n | Uses(luns, n) }
  ghost function TpgNames(gs: seq<TPG>): iset<string> { iset n | TpgsUse(gs, n) }
  ghost function TargetNames(ts: seq<Target>): iset<string> { iset n | TargetsUse(ts, n) }

  lemma LunNamesNext(luns: seq<LUN>, i: nat)
    requires i < |luns|
    ensures LunNames(luns[..i + 1]) == LunNames(luns[..i]) + iset{luns[i].backstore}
  {
    assert luns[..i + 1] == luns[..i] + [luns[i]];
    forall n ensures Uses(luns[..i + 1], n) <==> Uses(luns[..i], n) || n == luns[i].backstore {
      assert luns[i] in luns[..i + 1];
    }
  }

  /** From bs to more: distinct backstores of next, and those a name in used asked for. */
  ghost predicate Pulled(bs: seq<Backstore>, more: seq<Backstore>, next: seq<Backstore>, used: iset<string>) {
    && (forall b | b in more :: b in next) && Distinct(more, NameKey)
    && (forall b | b in next :: b in more <==> b in bs || b.key.name in used)
  }

  /** The innermost loop of addReferencedBackstores (lio/delta.go:211-221). */
  method PullLuns(bs: seq<Backstore>, luns: seq<LUN>, byName: map<string, Backstore>, next: seq<Backstore>)
    returns (more: seq<Backstore>)
    requires (forall b | b in bs :: b in next) && Distinct(bs, NameKey) && Distinct(next, NameKey)
    requires forall b | b in next :: b.key.name in byName && byName[b.key.name] == b
    requires forall n | n in byName :: byName[n] in next && byName[n].key.name == n
    ensures Pulled(bs, more, next, LunNames(luns))
  {
    more := bs;
    var have := set b | b in bs :: b.key.name;
    for i := 0 to |luns|
      invariant have == Names(more) && Pulled(bs, more, next, LunNames(luns[..i]))
    {
      var name := luns[i].backstore;
      ghost var was := more;
      if name !in have && name in byName {
        more := more + [byName[name]];
        have := have + {name};
      }
      PulledOne(bs, was, more, next, luns, i, byName);
    }
    assert luns[..|luns|] == luns;
  }

  lemma PulledOne(bs: seq<Backstore>, was: seq<Backstore>, more: seq<Backstore>, next: seq<Backstore>,
                  luns: seq<LUN>, i: nat, byName: map<string, Backstore>)
    requires i < |luns| && Pulled(bs, was, next, LunNames(luns[..i]))
    requires forall b | b in next :: b.key.name in byName && byName[b.key.name] == b
    requires forall n | n in byName :: byName[n] in next && byName[n].key.name == n
    requires var name := luns[i].backstore;
             more == if name !in Names(was) && name in byName then was + [byName[name]] else was
    ensures Pulled(bs, more, next, LunNames(luns[..i + 1]))
    ensures Names(more) == if luns[i].backstore in byName then Names(was) + {luns[i].backstore} else Names(was)
  {
    LunNamesNext(luns, i);
    var name := luns[i].backstore;
    forall b | b in next
      ensures b in more <==> b in bs || b.key.name in LunNames(luns[..i + 1])
    {
      if b.key.name == name && name in Names(was) {
        var w :| w in was && w.key.name == name;
        assert w == byName[name] == b;
      }
    }
  }

  lemma PulledTrans(bs: seq<Backstore>, was: seq<Backstore>, more: seq<Backstore>, next: seq<Backstore>,
                    used: iset<string>, and: iset<string>, all: iset<string>)
    requires Pulled(bs, was, next, used) && Pulled(was, more, next, and) && all == used + and
    ensures Pulled(bs, more, next, all)
  {
  }

  method PullTpgs(bs: seq<Backstore>, gs: seq<TPG>, byName: map<string, Backstore>, next: seq<Backstore>)
    returns (more: seq<Backstore>)
    requires (forall b | b in bs :: b in next) && Distinct(bs, NameKey) && Distinct(next, NameKey)
    requires forall b | b in next :: b.key.name in byName && byName[b.key.name] == b
    requires forall n | n in byName :: byName[n] in next && byName[n].key.name == n
    ensures Pulled(bs, more, next, TpgNames(gs))
  {
    more := bs;
    for i := 0 to |gs|
      invariant Pulled(bs, more, next, TpgNames(gs[..i]))
    {
      ghost var was := more;
      more := PullLuns(more, gs[i].luns, byName, next);
      TakeNext(gs, i);
      PulledTrans(bs, was, more, next, TpgNames(gs[..i]), LunNames(gs[i].luns), TpgNames(gs[..i + 1]));
    }
    assert gs[..|gs|] == gs;
  }

  /** addReferencedBackstores (lio/delta.go:200-224). */
  method AddReferenced(bs: seq<Backstore>, ts: seq<Target>, next: seq<Backstore>) returns (more: seq<Backstore>)
    requires (forall b | b in bs :: b in next) && Distinct(bs, NameKey) && Distinct(next, NameKey)
    ensures Pulled(bs, more, next, TargetNames(ts))
  {
    var byName := Index(next, NameKey);
    more := bs;
    for i := 0 to |ts|
      invariant Pulled(bs, more, next, TargetNames(ts[..i]))
    {
      ghost var was := more;
      more := PullTpgs(more, ts[i].tpgs, byName, next);
      TakeNext(ts, i);
      PulledTrans(bs, was, more, next, TargetNames(ts[..i]), TpgNames(ts[i].tpgs), TargetNames(ts[..i + 1]));
    }
    assert ts[..|ts|] == ts;
  }

  // ----- Diff -----

  /** One target of next, against the target of that name in prev. */
  method DiffFound(had: map<string, Target>, nt: Target, rm: RemoveSet, ghost prev: Config, ghost next: Config, ghost done: set<Path>)
    returns (ok: bool, add: seq<TPG>, rm': RemoveSet)
    requires Valid(prev) && Valid(next) && nt in next.targets && RemovesUnder(prev, next, rm, done)
    requires forall t | t in prev.targets :: t.iqn in had && had[t.iqn] == t
    requires forall k | k in had :: had[k] in prev.targets && had[k].iqn == k
    ensures ok <==> HasLike(prev.targets, nt)
    ensures ok ==> add == NewTpgs(FindTarget(prev.targets, nt.iqn).value.tpgs, nt.tpgs) && rm'.backstores == rm.backstores
    ensures ok ==> RemovesUnder(prev, next, rm', done + TagPaths(nt.iqn, nt.tpgs))
  {
    FoundTarget(prev.targets, had, nt.iqn);
    if nt.iqn !in had {
      return false, [], rm;
    }
    ok, add, rm' := DiffTarget(had[nt.iqn], nt, rm, prev, next, done);
  }

  /** The target half of Diff (lio/delta.go:152-184). */
  method DiffTargets(prev: Config, next: Config, gone: set<Key>) returns (ok: bool, add: seq<Target>, rm: RemoveSet)
    requires Valid(prev) && Valid(next)
    ensures ok <==> SameShape(prev, next)
    ensures ok ==> add == NewTargets(prev.targets, next.targets) && rm.backstores == gone
    ensures ok ==> RemovesUnder(prev, next, rm, PathsOf(next.targets))
  {
    ok, add, rm := true, [], RemoveSet({}, {}, {}, gone);
    if |prev.targets| != |next.targets| {
      return false, [], rm;
    }
    var old' := Index(prev.targets, IqnKey);
    for i := 0 to |next.targets|
      invariant AllLike(prev.targets, next.targets[..i])
      invariant add == NewTargets(prev.targets, next.targets[..i]) && rm.backstores == gone
      invariant RemovesUnder(prev, next, rm, PathsOf(next.targets[..i]))
    {
      var nt := next.targets[i];
      PathsNext(next.targets, i);
      var more;
      ok, more, rm := DiffFound(old', nt, rm, prev, next, PathsOf(next.targets[..i]));
      AllLikeNext(prev.targets, next.targets, i);
      if !ok {
        return false, [], rm;
      }
      NewTargetsNext(prev.targets, next.targets, i);
      add := add + (if more == [] then [] else [Target(nt.iqn, more)]);
    }
    assert next.targets[..|next.targets|] == next.targets;
  }

  lemma PathsNext(ts: seq<Target>, i: nat)
    requires i < |ts|
    ensures PathsOf(ts[..i + 1]) == PathsOf(ts[..i]) + TagPaths(ts[i].iqn, ts[i].tpgs)
    ensures forall t :: t in ts[..i + 1] <==> t in ts[..i] || t == ts[i]
  {
    assert ts[..i + 1] == ts[..i] + [ts[i]];
  }

  /** Diff.  It answers exactly for the changes a delta can express, with the delta. */
  method DiffConfigs(prev: Config, next: Config) returns (d: Delta, ok: bool)
    requires Valid(prev) && Valid(next)
    ensures ok <==> Expressible(prev, next)
    ensures ok ==> IsDelta(prev, next, d)
  {
    d := Delta(Config([], []), RemoveSet({}, {}, {}, {}));
    var bs, gone;
    ok, bs, gone := DiffBackstores(prev.backstores, next.backstores);
    if !ok { return; }
    var ts, rm;
    ok, ts, rm := DiffTargets(prev, next, gone);
    if !ok { return; }
    forall b ensures b in bs <==> b in next.backstores && b !in prev.backstores {
      NewIs(prev.backstores, next.backstores, b);
    }
    NewDistinct(prev.backstores, next.backstores, NameKey);
    bs := AddReferenced(bs, ts, next.backstores);
    d := Delta(Config(bs, ts), rm);
    assert AddsBackstores(prev, next, d.add);
    RemovesAll(prev, next, rm);
  }

  lemma RemovesAll(prev: Config, next: Config, rm: RemoveSet)
    requires Valid(next) && RemovesUnder(prev, next, rm, PathsOf(next.targets))
    requires rm.backstores == Keys(prev.backstores) - Keys(next.backstores)
    ensures Removes(prev, next, rm)
  {
    PathsWanted(next);
  }
}
