/** desiredLIO as it is built: loops over connections, exported objects and hosts
    (appliance/translate.go:59-248). */
module DesiredLio {
  import opened LioConfig
  import opened Kernel
  import opened Remove
  import opened Sync
  import opened Ensure
  import opened Diff
  import opened Database
  import opened Mutations
  import opened Translate

  /** object (appliance/model.go:150-157). */
  method Lookup(os: seq<Object>, uuid: string) returns (o: Option<Object>)
    ensures o == Find(os, uuid)
  {
    for i := 0 to |os|
      invariant Find(os, uuid) == Find(os[i..], uuid)
    {
      if os[i].uuid == uuid {
        return Some(os[i]);
      }
    }
    return None;
  }

  /** The objects to present (appliance/translate.go:61-89). */
  method ShownObjects(db: Db, out: set<string>) returns (shown: set<string>)
    ensures shown == Shown(db, out)
  {
    shown := {};
    for i := 0 to |db.conns|
      invariant shown == Shown(db.(conns := db.conns[..i]), {})
    {
      var u := db.conns[i].obj;
      assert db.conns[..i + 1] == db.conns[..i] + [db.conns[i]];
      var o := Lookup(db.objects, u);
      if o.Some? && o.value.state.Ready? {
        shown := shown + {u};
      }
    }
    assert db.conns[..|db.conns|] == db.conns;
    shown := shown - out;
  }

  /** The mapped LUNs of one host. */
  method HostMapped(db: Db, host: string, shown: set<string>) returns (ms: seq<MappedLUN>)
    requires shown <= db.exports.Keys
    ensures ms == MappedFor(db.conns, host, db.exports, shown)
  {
    ms := [];
    for i := 0 to |db.conns|
      invariant ms == MappedFor(db.conns[..i], host, db.exports, shown)
    {
      var c := db.conns[i];
      assert db.conns[..i + 1][..i] == db.conns[..i];
      if c.host == host && c.obj in shown {
        ms := ms + [MappedLUN(c.lun, db.exports[c.obj], false)];
      }
    }
    assert db.conns[..|db.conns|] == db.conns;
  }

  /** One ACL per initiator of every host. */
  method HostAcls(db: Db, shown: set<string>) returns (acls: seq<ACL>)
    requires shown <= db.exports.Keys
    ensures acls == AclsFor(db.hosts, db.conns, db.exports, shown)
  {
    acls := [];
    for i := 0 to |db.hosts|
      invariant acls == AclsFor(db.hosts[..i], db.conns, db.exports, shown)
    {
      var h := db.hosts[i];
      var ms := HostMapped(db, h.uuid, shown);
      var own := [];
      for j := 0 to |h.iqns|
        invariant own == AclsOf(h.iqns[..j], ms)
      {
        assert h.iqns[..j + 1][..j] == h.iqns[..j];
        own := own + [ACL(h.iqns[j], ms)];
      }
      assert h.iqns[..|h.iqns|] == h.iqns;
      assert db.hosts[..i + 1][..i] == db.hosts[..i];
      acls := acls + own;
    }
    assert db.hosts[..|db.hosts|] == db.hosts;
  }

  /** A prefix of a listing. */
  ghost predicate Listing(order: seq<string>, rest: set<string>, shown: set<string>) {
    Distinct(order, Same) && (forall u :: u in shown <==> u in order || u in rest) && forall u | u in order :: u !in rest
  }

  lemma ListNext(order: seq<string>, rest: set<string>, shown: set<string>, u: string)
    requires Listing(order, rest, shown) && u in rest
    ensures Listing(order + [u], rest - {u}, shown)
  {
    AppendDistinct(order, u, Same);
  }

  ghost predicate Have(db: Db, shown: set<string>) {
    forall u | u in shown :: u in db.exports && Find(db.objects, u).Some? && Find(db.objects, u).value.uuid == u
                             && Find(db.objects, u).value.blockSize > 0
  }

  /** A backstore and a LUN for each exported object, in the order a map happens to be ranged
      over (appliance/translate.go:103-229).  Each has its index already, so none is allocated. */
  method BuildLuns(db: Db, shown: set<string>, s: Settings)
    returns (bs: seq<Backstore>, luns: seq<LUN>, exports: map<string, int>, order: seq<string>)
    requires Have(db, shown)
    ensures exports == db.exports && Lists(order, shown) && Presentable(db, order)
    ensures bs == BackstoresFor(db, order, s) && luns == LunsFor(db.exports, order)
  {
    bs, luns, exports, order := [], [], db.exports, [];
    var rest := shown;
    while rest != {}
      invariant exports == db.exports && Listing(order, rest, shown)
      invariant Presentable(db, order) && bs == BackstoresFor(db, order, s) && luns == LunsFor(exports, order)
      decreases |rest|
    {
      var u := Pick(rest);
      var o := Lookup(db.objects, u);
      var idx;
      idx, exports := ExportIndex(exports, u);
      bs := bs + [BackstoreFor(o.value, exports, s)];
      luns := luns + [LUN(idx, BackstoreName(u))];
      assert (order + [u])[..|order|] == order;
      ListNext(order, rest, shown, u);
      order, rest := order + [u], rest - {u};
    }
  }

  /** desiredLIO: the config, and the order the exported objects happened to come in. */
  method Build(db: Db, out: set<string>, s: Settings) returns (cfg: Config, exports: map<string, int>, order: seq<string>)
    requires DbOk(db) && SettingsOk(s)
    ensures exports == db.exports && Lists(order, Shown(db, out))
    ensures Presentable(db, order) && Shown(db, out) <= db.exports.Keys
    ensures cfg == Desired(db, order, Shown(db, out), s) && Valid(cfg) && PortalsFit(cfg)
  {
    var shown := ShownObjects(db, out);
    ShownHave(db, out);
    var bs, luns;
    bs, luns, exports, order := BuildLuns(db, shown, s);
    var acls := HostAcls(db, shown);
    cfg := Config(bs, [Target(s.iqn, [TPG(1, true, PortalsOf(db, s), luns, acls, TpgAttrs())])]);
    DesiredValid(db, order, out, s);
  }

  lemma ShownHave(db: Db, out: set<string>)
    requires DbOk(db)
    ensures Have(db, Shown(db, out))
  {
    forall u | u in Shown(db, out)
      ensures u in db.exports && Find(db.objects, u).Some? && Find(db.objects, u).value.uuid == u && Find(db.objects, u).value.blockSize > 0
    {
      FindIs(db.objects, u);
      assert ObjectOk(Find(db.objects, u).value);
    }
  }
}
