/** How the live tree and the database stand to each other between two operations. */
module Coherence {
  import opened LioConfig
  import opened Kernel
  import opened Topology
  import opened Backstores
  import opened Ensure
  import opened Apply
  import opened Sync
  import opened Diff
  import opened Database
  import opened Mutations
  import opened Translate

  /** No export index is live with another object's backstore. */
  ghost predicate NoForeign(nodes: map<Path, Node>, exports: map<string, int>, s: Settings) {
    forall u | u in exports :: LinkAt(nodes, Home(s), exports[u]) in {None, Some(KeyOf(exports, u))}
  }

  /** The tree is what the database asks for, with the objects of out held back. */
  ghost predicate InSync(t: Tree, db: Db, out: set<string>, s: Settings) {
    Matches(t, db, out, s) == true // carried whole, not clause by clause
  }

  ghost predicate Matches(t: Tree, db: Db, out: set<string>, s: Settings) {
    exists order :: Lists(order, Shown(db, out)) && Presentable(db, order) && Shown(db, out) <= db.exports.Keys
                    && Realised(t, Desired(db, order, Shown(db, out), s))
  }

  /** No backstore of the object is in the tree, under any HBA. */
  ghost predicate NotBuilt(objs: map<Key, Obj>, u: string) {
    forall k | k in objs :: k.name != BackstoreName(u)
  }

  lemma NoForeignNoClash(nodes: map<Path, Node>, db: Db, order: seq<string>, shown: set<string>, s: Settings)
    requires Presentable(db, order) && shown <= db.exports.Keys && ValidBackstores(BackstoresFor(db, order, s))
    requires NoForeign(nodes, db.exports, s)
    ensures NoClash(nodes, Desired(db, order, shown, s))
  {
    forall p, i, k | LinkAt(nodes, p, i).Some? && Goal(Desired(db, order, shown, s), p, i, k)
      ensures LinkAt(nodes, p, i) == Some(k)
    {
      var u := DesiredGoal(db, order, shown, s, p, i, k);
    }
  }

  /** A pass toward the desired config brings in no foreign link. */
  lemma TowardKeepsNoForeign(n0: map<Path, Node>, n1: map<Path, Node>, db: Db, order: seq<string>, shown: set<string>, s: Settings)
    requires Presentable(db, order) && shown <= db.exports.Keys && ValidBackstores(BackstoresFor(db, order, s))
    requires Injective(db.exports) && NoForeign(n0, db.exports, s) && Toward(n0, n1, Desired(db, order, shown, s))
    ensures NoForeign(n1, db.exports, s)
  {
    forall u | u in db.exports ensures LinkAt(n1, Home(s), db.exports[u]) in {None, Some(KeyOf(db.exports, u))} {
      var i := db.exports[u];
      if LinkAt(n1, Home(s), i).Some? && LinkAt(n1, Home(s), i) != LinkAt(n0, Home(s), i) {
        var v := DesiredGoal(db, order, shown, s, Home(s), i, LinkAt(n1, Home(s), i).value);
      }
    }
  }

  /** In a tree that is in sync, only indexes in use are linked. */
  lemma SyncedLinks(t: Tree, db: Db, order: seq<string>, shown: set<string>, s: Settings, i: int)
    requires Presentable(db, order) && shown <= db.exports.Keys
    requires Realised(t, Desired(db, order, shown, s)) && LinkAt(t.nodes, Home(s), i).Some?
    ensures i in db.exports.Values
  {
    var c := Desired(db, order, shown, s);
    var g := c.targets[0].tpgs[0];
    assert c.targets[0] in c.targets && g in c.targets[0].tpgs;
    assert NodeRealised(t.nodes[Home(s)], g, KeyMap(c.backstores));
    var l :| l in g.luns && l.index == i;
    var u := LunIs(db.exports, order, l);
  }

  /** An index is kept, or is one that was free. */
  ghost predicate ExportsStep(e0: map<string, int>, e1: map<string, int>) {
    forall u | u in e1 :: (u in e0 && e1[u] == e0[u]) || e1[u] !in e0.Values
  }

  /** The allocator cannot hand out an index that is still live with another object, because
      the tree was in sync when it ran. */
  lemma FreshIndexUnlinked(t: Tree, db: Db, out: set<string>, s: Settings, e1: map<string, int>)
    requires InSync(t, db, out, s) && NoForeign(t.nodes, db.exports, s) && ExportsStep(db.exports, e1)
    ensures NoForeign(t.nodes, e1, s)
  {
    var order :| Lists(order, Shown(db, out)) && Presentable(db, order) && Shown(db, out) <= db.exports.Keys
                 && Realised(t, Desired(db, order, Shown(db, out), s));
    forall u | u in e1 ensures LinkAt(t.nodes, Home(s), e1[u]) in {None, Some(KeyOf(e1, u))} {
      if LinkAt(t.nodes, Home(s), e1[u]).Some? {
        SyncedLinks(t, db, order, Shown(db, out), s, e1[u]);
      }
    }
  }

  lemma ConnectStep(db: Db, c: Connection)
    ensures ExportsStep(db.exports, AddConn(db, c).exports)
  {
  }

  lemma DisconnectStep(db: Db, u: string, h: string)
    ensures ExportsStep(db.exports, DropConn(db, u, h).exports)
  {
  }

  /** A held-back object is not built by a pass that does not list it. */
  lemma StillNotBuilt(o0: map<Key, Obj>, o1: map<Key, Obj>, db: Db, order: seq<string>, s: Settings, u: string)
    requires Presentable(db, order) && (forall v | v in order :: ValidUuid(v)) && ValidUuid(u) && u !in order
    requires NotBuilt(o0, u) && o1.Keys <= o0.Keys + Keys(BackstoresFor(db, order, s))
    ensures NotBuilt(o1, u)
  {
    DesiredKeys(db, order, s);
    forall k | k in o1 ensures k.name != BackstoreName(u) {
      if k !in o0 {
        var v :| v in order && k == KeyOf(db.exports, v);
        if BackstoreName(v) == BackstoreName(u) {
          NameInjective(v, u);
        }
      }
    }
  }

  /** In a tree that is in sync, an object left out has no backstore at all. */
  lemma LeftOutAbsent(t: Tree, db: Db, out: set<string>, s: Settings, u: string)
    requires DbOk(db) && InSync(t, db, out, s) && ValidUuid(u) && u !in Shown(db, out)
    ensures NotBuilt(t.objs, u)
  {
    var order :| Lists(order, Shown(db, out)) && Presentable(db, order) && Shown(db, out) <= db.exports.Keys
                 && Realised(t, Desired(db, order, Shown(db, out), s));
    ShownPresentable(db, order, out);
    StillNotBuilt(map[], t.objs, db, order, s, u);
  }

  // ----- changes the tree does not see -----

  /** The two databases present the same objects to the same hosts. */
  ghost predicate SamePresented(db: Db, next: Db, out: set<string>) {
    && next.exports == db.exports && next.hosts == db.hosts && next.conns == db.conns && next.portals == db.portals
    && Shown(next, out) == Shown(db, out)
  }

  lemma SameKeyMap(db: Db, next: Db, order: seq<string>, s: Settings)
    requires Presentable(db, order) && Presentable(next, order) && next.exports == db.exports
    ensures KeyMap(BackstoresFor(next, order, s)) == KeyMap(BackstoresFor(db, order, s))
    ensures Keys(BackstoresFor(next, order, s)) == Keys(BackstoresFor(db, order, s))
  {
    BackstoresAre(db, order, s);
    BackstoresAre(next, order, s);
    KeyMapSame(BackstoresFor(db, order, s), BackstoresFor(next, order, s));
    DesiredKeys(db, order, s);
    DesiredKeys(next, order, s);
  }

  lemma StillInSync(t: Tree, db: Db, next: Db, out: set<string>, s: Settings)
    requires DbOk(db) && DbOk(next) && InSync(t, db, out, s) && SamePresented(db, next, out)
    ensures InSync(t, next, out, s)
  {
    var order :| Lists(order, Shown(db, out)) && Presentable(db, order) && Shown(db, out) <= db.exports.Keys
                 && Realised(t, Desired(db, order, Shown(db, out), s));
    ShownPresentable(next, order, out);
    SameKeyMap(db, next, order, s);
    RealisedSame(t, db, next, order, Shown(db, out), s);
  }

  lemma RealisedSame(t: Tree, db: Db, next: Db, order: seq<string>, shown: set<string>, s: Settings)
    requires Presentable(db, order) && Presentable(next, order) && shown <= db.exports.Keys && shown <= next.exports.Keys
    requires next.exports == db.exports && next.hosts == db.hosts && next.conns == db.conns && next.portals == db.portals
    requires KeyMap(BackstoresFor(next, order, s)) == KeyMap(BackstoresFor(db, order, s))
    requires Keys(BackstoresFor(next, order, s)) == Keys(BackstoresFor(db, order, s))
    requires Realised(t, Desired(db, order, shown, s))
    ensures Realised(t, Desired(next, order, shown, s))
  {
    assert Desired(next, order, shown, s).targets == Desired(db, order, shown, s).targets;
  }

  lemma {:induction false} AppendFind(os: seq<Object>, o: Object, u: string)
    ensures Find(os + [o], u) == if Find(os, u).Some? then Find(os, u) else if o.uuid == u then Some(o) else None
  {
    if os != [] {
      assert (os + [o])[1..] == os[1..] + [o];
      AppendFind(os[1..], o, u);
    }
  }

  /** A new object is unconnected, so it presents nothing. */
  lemma CreateUnseen(db: Db, o: Object, out: set<string>)
    requires DbOk(db) && o.uuid !in Uuids(db.objects)
    ensures SamePresented(db, AddObject(db, o), out)
  {
    forall c | c in db.conns ensures Find(AddObject(db, o).objects, c.obj) == Find(db.objects, c.obj) {
      AppendFind(db.objects, o, c.obj);
      FindIs(db.objects, c.obj);
    }
  }

  lemma DeleteUnseen(db: Db, u: string, out: set<string>)
    requires DbOk(db) && u !in Connected(db.conns)
    ensures SamePresented(db, DropObject(db, u), out)
  {
    DropObjectOk(db, u);
    forall c | c in db.conns ensures Find(DropObject(db, u).objects, c.obj) == Find(db.objects, c.obj) {
      FindIs(db.objects, c.obj);
      FindAt(DropObject(db, u).objects, Find(db.objects, c.obj).value);
    }
  }

  lemma RewriteUnseen(db: Db, o: Object, now: Object, out: set<string>)
    requires DbOk(db) && o in db.objects && now.uuid == o.uuid && now.state == o.state
    ensures SamePresented(db, db.(objects := Rewrite(db.objects, o.uuid, now)), out)
  {
    FindAt(db.objects, o);
    forall c | c in db.conns
      ensures Find(Rewrite(db.objects, o.uuid, now), c.obj).Some? == Find(db.objects, c.obj).Some?
      ensures Find(db.objects, c.obj).Some? ==>
                Find(Rewrite(db.objects, o.uuid, now), c.obj).value.state == Find(db.objects, c.obj).value.state
    {
      RewriteFind(db.objects, o.uuid, now, c.obj);
    }
  }

  lemma ShownIgnores(db: Db, out: set<string>, more: set<string>, u: string)
    requires u !in Uuids(db.objects) && out - {u} == more - {u}
    ensures Shown(db, more) == Shown(db, out)
  {
    FindIs(db.objects, u);
    forall v ensures v in Shown(db, more) <==> v in Shown(db, out) {
      assert v != u ==> (v in more <==> v in more - {u}) && (v in out <==> v in out - {u});
    }
  }

  lemma SameShown(t: Tree, db: Db, out: set<string>, more: set<string>, s: Settings)
    requires InSync(t, db, out, s) && Shown(db, more) == Shown(db, out)
    ensures InSync(t, db, more, s)
  {
    var order :| Lists(order, Shown(db, out)) && Presentable(db, order) && Shown(db, out) <= db.exports.Keys
                 && Realised(t, Desired(db, order, Shown(db, out), s));
    assert Lists(order, Shown(db, more));
  }
}
