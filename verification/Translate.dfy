/** desiredLIO (appliance/translate.go:32-248): the database as an LIO config. */
module Translate {
  import opened LioConfig
  import opened Kernel
  import opened Topology
  import opened Backstores
  import opened Ensure
  import opened Apply
  import opened Remove
  import opened Sync
  import opened Diff
  import opened Database

  /** The appliance configuration the translation reads. */
  datatype Settings = Settings(iqn: string, portals: seq<Portal>, writeBack: bool, noUnmap: bool, root: string)

  ghost predicate SettingsOk(s: Settings) {
    ValidTargetIqn(s.iqn) && ValidPortals(s.portals) && NoOverlap(s.portals)
  }

  // ----- the name of a backstore -----

  function Strip(s: string): string {
    if s == "" then "" else (if s[0] == '-' then "" else [s[0]]) + Strip(s[1..])
  }

  function BackstoreName(uuid: string): string { "vol_" + Strip(uuid) }

  lemma {:induction false} StripInjective(s: string, t: string)
    requires |s| == |t| && Strip(s) == Strip(t)
    requires forall i | 0 <= i < |s| :: s[i] == '-' <==> t[i] == '-'
    ensures s == t
  {
    if s != "" {
      assert s[0] == '-' <==> t[0] == '-';
      if s[0] == '-' {
        assert Strip(s) == Strip(s[1..]) && Strip(t) == Strip(t[1..]);
      } else {
        assert Strip(s)[0] == s[0] && Strip(t)[0] == t[0];
        assert Strip(s)[1..] == Strip(s[1..]) && Strip(t)[1..] == Strip(t[1..]);
      }
      StripInjective(s[1..], t[1..]);
      assert s == [s[0]] + s[1..] && t == [t[0]] + t[1..];
    }
  }

  /** Two volumes never share a backstore name. */
  lemma NameInjective(u: string, v: string)
    requires ValidUuid(u) && ValidUuid(v) && BackstoreName(u) == BackstoreName(v)
    ensures u == v
  {
    assert BackstoreName(u)[4..] == Strip(u) && BackstoreName(v)[4..] == Strip(v);
    StripInjective(u, v);
  }

  lemma {:induction false} StripKeeps(s: string, c: char)
    requires c in Strip(s)
    ensures c in s && c != '-'
  {
    if s != "" && c in Strip(s[1..]) {
      StripKeeps(s[1..], c);
    }
  }

  lemma NameUsable(u: string)
    requires ValidUuid(u)
    ensures BackstoreName(u) != "." && BackstoreName(u) != ".." && BackstoreName(u) != ""
    ensures forall c | c in BackstoreName(u) :: c != '/' && c != ' ' && c != '\t' && c != '\n'
  {
    assert |BackstoreName(u)| >= 4;
    forall c | c in Strip(u) ensures Hex(c) {
      StripKeeps(u, c);
    }
  }

  // ----- the config -----

  /** The objects presented: connected, ready, and not held out. */
  ghost function Shown(db: Db, out: set<string>): set<string> {
    set c | c in db.conns && Find(db.objects, c.obj).Some? && Find(db.objects, c.obj).value.state.Ready? && c.obj !in out ::
      c.obj
  }

  function Digits(blockSize: int): string { if blockSize == 4096 then "4096" else "512" }

  function KeyOf(exports: map<string, int>, u: string): Key
    requires u in exports
  {
    Key(FileIO, exports[u], BackstoreName(u))
  }

  function DiskPath(s: Settings, u: string): string { s.root + "/" + u + "/disk" }

  function BackstoreFor(o: Object, exports: map<string, int>, s: Settings): Backstore
    requires o.uuid in exports && o.blockSize > 0
  {
    Backstore(KeyOf(exports, o.uuid), DiskPath(s, o.uuid), Floor(o.capacity, o.blockSize), o.wwn, s.writeBack,
              map[BlockSize := Digits(o.blockSize), OptimalSectors := "0", WriteCache := Flag(s.writeBack),
                  EmulateTpu := Flag(!s.noUnmap), EmulateTpws := Flag(!s.noUnmap)])
  }

  function LunFor(exports: map<string, int>, u: string): LUN
    requires u in exports
  {
    LUN(exports[u], BackstoreName(u))
  }

  /** The mapped LUNs of one host, in connection order (appliance/translate.go:235-240). */
  function MappedFor(conns: seq<Connection>, host: string, exports: map<string, int>, shown: set<string>): seq<MappedLUN>
    requires shown <= exports.Keys
  {
    if conns == [] then []
    else
      var c := conns[|conns| - 1];
      MappedFor(conns[..|conns| - 1], host, exports, shown) +
      (if c.host == host && c.obj in shown then [MappedLUN(c.lun, exports[c.obj], false)] else [])
  }

  function AclsOf(iqns: seq<string>, ms: seq<MappedLUN>): seq<ACL> {
    if iqns == [] then [] else AclsOf(iqns[..|iqns| - 1], ms) + [ACL(iqns[|iqns| - 1], ms)]
  }

  /** One ACL per initiator of every host, connected or not (appliance/translate.go:234-244). */
  function AclsFor(hosts: seq<Host>, conns: seq<Connection>, exports: map<string, int>, shown: set<string>): seq<ACL>
    requires shown <= exports.Keys
  {
    if hosts == [] then []
    else
      var h := hosts[|hosts| - 1];
      AclsFor(hosts[..|hosts| - 1], conns, exports, shown) + AclsOf(h.iqns, MappedFor(conns, h.uuid, exports, shown))
  }

  function TpgAttrs(): map<string, string> {
    map["generate_node_acls" := "0", "authentication" := "0", "demo_mode_write_protect" := "0"]
  }

  function PortalsOf(db: Db, s: Settings): seq<Portal> {
    if db.portals == [] then s.portals else db.portals
  }

  /** Each object of order once, and no other. */
  ghost predicate Lists(order: seq<string>, shown: set<string>) {
    Distinct(order, Same) && (forall u :: u in order <==> u in shown)
  }

  ghost predicate Presentable(db: Db, order: seq<string>) {
    forall u | u in order :: u in db.exports && Find(db.objects, u).Some? && Find(db.objects, u).value.blockSize > 0
                             && Find(db.objects, u).value.uuid == u
  }

  function BackstoresFor(db: Db, order: seq<string>, s: Settings): seq<Backstore>
    requires Presentable(db, order)
  {
    if order == [] then []
    else BackstoresFor(db, order[..|order| - 1], s) + [BackstoreFor(Find(db.objects, order[|order| - 1]).value, db.exports, s)]
  }

  function LunsFor(exports: map<string, int>, order: seq<string>): seq<LUN>
    requires forall u | u in order :: u in exports
  {
    if order == [] then [] else LunsFor(exports, order[..|order| - 1]) + [LunFor(exports, order[|order| - 1])]
  }

  ghost function Desired(db: Db, order: seq<string>, shown: set<string>, s: Settings): Config
    requires Presentable(db, order) && shown <= db.exports.Keys
  {
    Config(BackstoresFor(db, order, s),
           [Target(s.iqn, [TPG(1, true, PortalsOf(db, s), LunsFor(db.exports, order),
                               AclsFor(db.hosts, db.conns, db.exports, shown), TpgAttrs())])])
  }

  // ----- what is in it -----

  lemma {:induction false} BackstoresAre(db: Db, order: seq<string>, s: Settings)
    requires Presentable(db, order)
    ensures |BackstoresFor(db, order, s)| == |order|
    ensures forall i | 0 <= i < |order| ::
              BackstoresFor(db, order, s)[i] == BackstoreFor(Find(db.objects, order[i]).value, db.exports, s)
  {
    if order != [] {
      BackstoresAre(db, order[..|order| - 1], s);
    }
  }

  lemma {:induction false} LunsAre(exports: map<string, int>, order: seq<string>)
    requires forall u | u in order :: u in exports
    ensures |LunsFor(exports, order)| == |order|
    ensures forall i | 0 <= i < |order| :: LunsFor(exports, order)[i] == LunFor(exports, order[i])
  {
    if order != [] {
      LunsAre(exports, order[..|order| - 1]);
    }
  }

  lemma {:induction false} MappedIs(conns: seq<Connection>, host: string, exports: map<string, int>, shown: set<string>, m: MappedLUN)
    requires shown <= exports.Keys
    ensures m in MappedFor(conns, host, exports, shown) <==>
            exists c :: c in conns && c.host == host && c.obj in shown && m == MappedLUN(c.lun, exports[c.obj], false)
  {
    if conns != [] {
      assert conns == conns[..|conns| - 1] + [conns[|conns| - 1]];
      MappedIs(conns[..|conns| - 1], host, exports, shown, m);
    }
  }

  lemma {:induction false} MappedDistinct(conns: seq<Connection>, host: string, exports: map<string, int>, shown: set<string>)
    requires shown <= exports.Keys && Distinct(conns, LunKeyOf)
    ensures Distinct(MappedFor(conns, host, exports, shown), MappedKey)
  {
    if conns != [] {
      var init, last := conns[..|conns| - 1], conns[|conns| - 1];
      assert conns == init + [last];
      MappedDistinct(init, host, exports, shown);
      var ms := MappedFor(init, host, exports, shown);
      forall j | 0 <= j < |ms| && last.host == host ensures ms[j].index != last.lun {
        MappedIs(init, host, exports, shown, ms[j]);
        var c :| c in init && c.host == host && c.obj in shown && ms[j] == MappedLUN(c.lun, exports[c.obj], false);
        var i :| 0 <= i < |init| && init[i] == c;
        assert LunKeyOf(conns[i]) != LunKeyOf(conns[|conns| - 1]);
      }
    }
  }

  lemma {:induction false} AclsOfAre(iqns: seq<string>, ms: seq<MappedLUN>)
    ensures |AclsOf(iqns, ms)| == |iqns|
    ensures forall i | 0 <= i < |iqns| :: AclsOf(iqns, ms)[i] == ACL(iqns[i], ms)
  {
    if iqns != [] {
      AclsOfAre(iqns[..|iqns| - 1], ms);
    }
  }

  lemma {:induction false} AclsAre(hosts: seq<Host>, conns: seq<Connection>, exports: map<string, int>, shown: set<string>, a: ACL)
    requires shown <= exports.Keys
    ensures a in AclsFor(hosts, conns, exports, shown) <==>
            exists h :: h in hosts && a.initiator in h.iqns && a.mapped == MappedFor(conns, h.uuid, exports, shown)
  {
    if hosts != [] {
      var init, h := hosts[..|hosts| - 1], hosts[|hosts| - 1];
      assert hosts == init + [h];
      AclsAre(init, conns, exports, shown, a);
      var ms := MappedFor(conns, h.uuid, exports, shown);
      AclsOfAre(h.iqns, ms);
      if a.initiator in h.iqns && a.mapped == ms {
        var i :| 0 <= i < |h.iqns| && h.iqns[i] == a.initiator;
        assert AclsOf(h.iqns, ms)[i] == a;
      }
    }
  }

  lemma {:induction false} AclsDistinct(hosts: seq<Host>, conns: seq<Connection>, exports: map<string, int>, shown: set<string>)
    requires shown <= exports.Keys && HostsOk(hosts)
    ensures Distinct(AclsFor(hosts, conns, exports, shown), AclKey)
  {
    if hosts != [] {
      var init, h := hosts[..|hosts| - 1], hosts[|hosts| - 1];
      assert hosts == init + [h];
      assert HostsOk(init);
      AclsDistinct(init, conns, exports, shown);
      var ms := MappedFor(conns, h.uuid, exports, shown);
      AclsOfAre(h.iqns, ms);
      var before, own := AclsFor(init, conns, exports, shown), AclsOf(h.iqns, ms);
      forall i, j | 0 <= i < |before| && 0 <= j < |own| ensures before[i].initiator != own[j].initiator {
        OwnAcl(hosts, conns, exports, shown, before[i], own[j].initiator);
      }
    }
  }

  /** No earlier host has an initiator of the last. */
  lemma OwnAcl(hosts: seq<Host>, conns: seq<Connection>, exports: map<string, int>, shown: set<string>, a: ACL, q: string)
    requires hosts != [] && shown <= exports.Keys && HostsOk(hosts)
    requires a in AclsFor(hosts[..|hosts| - 1], conns, exports, shown) && q in hosts[|hosts| - 1].iqns
    ensures a.initiator != q
  {
    var init, h := hosts[..|hosts| - 1], hosts[|hosts| - 1];
    AclsAre(init, conns, exports, shown, a);
    var g :| g in init && a.initiator in g.iqns;
    var k :| 0 <= k < |init| && init[k] == g;
    assert HostKey(hosts[k]) != HostKey(hosts[|hosts| - 1]);
    assert g in hosts && h in hosts;
  }

  // ----- it is valid -----

  lemma ShownPresentable(db: Db, order: seq<string>, out: set<string>)
    requires DbOk(db) && Lists(order, Shown(db, out))
    ensures Presentable(db, order) && Shown(db, out) <= db.exports.Keys
    ensures forall u | u in order :: ValidUuid(u) && ObjectOk(Find(db.objects, u).value)
  {
    forall u | u in order
      ensures u in db.exports && Find(db.objects, u).Some? && Find(db.objects, u).value.uuid == u
      ensures ObjectOk(Find(db.objects, u).value)
    {
      assert u in Shown(db, out);
      FindIs(db.objects, u);
    }
  }

  lemma BackstoreForValid(o: Object, exports: map<string, int>, s: Settings)
    requires ObjectOk(o) && o.uuid in exports && exports[o.uuid] >= 0
    ensures ValidBackstore(BackstoreFor(o, exports, s))
  {
    NameUsable(o.uuid);
  }

  lemma DesiredBackstoresValid(db: Db, order: seq<string>, s: Settings)
    requires Presentable(db, order) && Distinct(order, Same) && forall u | u in db.exports :: db.exports[u] >= 0
    requires forall u | u in order :: ValidUuid(u) && ObjectOk(Find(db.objects, u).value)
    ensures ValidBackstores(BackstoresFor(db, order, s))
    ensures Names(BackstoresFor(db, order, s)) == set u | u in order :: BackstoreName(u)
  {
    var bs := BackstoresFor(db, order, s);
    BackstoresAre(db, order, s);
    forall b | b in bs ensures ValidBackstore(b) && b.key.name in (set u | u in order :: BackstoreName(u)) {
      var i :| 0 <= i < |bs| && bs[i] == b;
      assert order[i] in order;
      BackstoreForValid(Find(db.objects, order[i]).value, db.exports, s);
    }
    forall i, j | 0 <= i < j < |bs| ensures bs[i].key.name != bs[j].key.name {
      assert order[i] in order && order[j] in order && Same(order[i]) != Same(order[j]);
      NamesApart(order[i], order[j]);
    }
    forall u | u in order ensures BackstoreName(u) in Names(bs) {
      var i :| 0 <= i < |order| && order[i] == u;
      assert bs[i] in bs;
    }
  }

  lemma NamesApart(u: string, v: string)
    requires ValidUuid(u) && ValidUuid(v) && u != v
    ensures BackstoreName(u) != BackstoreName(v)
  {
    if BackstoreName(u) == BackstoreName(v) {
      NameInjective(u, v);
    }
  }

  lemma DesiredLunsValid(exports: map<string, int>, order: seq<string>, names: set<string>)
    requires (forall u | u in order :: u in exports && BackstoreName(u) in names) && Distinct(order, Same) && Injective(exports)
    requires forall u | u in exports :: exports[u] >= 0
    ensures ValidLuns(LunsFor(exports, order), names)
    ensures forall u | u in order :: exports[u] in LunIndices(LunsFor(exports, order))
  {
    var luns := LunsFor(exports, order);
    LunsAre(exports, order);
    forall l | l in luns ensures l.index >= 0 && l.backstore in names {
      var i :| 0 <= i < |luns| && luns[i] == l;
      assert order[i] in order;
    }
    forall i, j | 0 <= i < j < |luns| ensures luns[i].index != luns[j].index {
      assert order[i] in order && order[j] in order && Same(order[i]) != Same(order[j]);
    }
    forall u | u in order ensures exports[u] in LunIndices(luns) {
      var i :| 0 <= i < |order| && order[i] == u;
      assert luns[i] in luns;
    }
  }

  lemma DesiredAclsValid(db: Db, order: seq<string>, shown: set<string>)
    requires DbOk(db) && Lists(order, shown) && shown <= db.exports.Keys && forall u | u in order :: u in db.exports
    requires forall u | u in order :: db.exports[u] in LunIndices(LunsFor(db.exports, order))
    ensures ValidAcls(AclsFor(db.hosts, db.conns, db.exports, shown), LunIndices(LunsFor(db.exports, order)))
  {
    var acls := AclsFor(db.hosts, db.conns, db.exports, shown);
    AclsDistinct(db.hosts, db.conns, db.exports, shown);
    forall a | a in acls
      ensures ValidInitiatorIqn(a.initiator) && ValidMapped(a.mapped, LunIndices(LunsFor(db.exports, order)))
    {
      AclsAre(db.hosts, db.conns, db.exports, shown, a);
      var h :| h in db.hosts && a.initiator in h.iqns && a.mapped == MappedFor(db.conns, h.uuid, db.exports, shown);
      MappedDistinct(db.conns, h.uuid, db.exports, shown);
      forall m | m in a.mapped ensures m.index >= 0 && m.tpgLun in LunIndices(LunsFor(db.exports, order)) {
        MappedIs(db.conns, h.uuid, db.exports, shown, m);
      }
    }
  }

  /** A database the API can reach translates into a config that Config.Validate accepts, with
      portals that can be bound. */
  lemma DesiredValid(db: Db, order: seq<string>, out: set<string>, s: Settings)
    requires DbOk(db) && SettingsOk(s) && Lists(order, Shown(db, out))
    ensures Presentable(db, order) && Shown(db, out) <= db.exports.Keys
    ensures Valid(Desired(db, order, Shown(db, out), s)) && PortalsFit(Desired(db, order, Shown(db, out), s))
  {
    ShownPresentable(db, order, out);
    DesiredBackstoresValid(db, order, s);
    var names := Names(BackstoresFor(db, order, s));
    DesiredLunsValid(db.exports, order, names);
    DesiredAclsValid(db, order, Shown(db, out));
  }

  // ----- where it aims -----

  /** The TPG everything is presented through. */
  function Home(s: Settings): Path { Path(s.iqn, 1) }

  /** A LUN the config asks for is a listed object at its export index. */
  lemma DesiredGoal(db: Db, order: seq<string>, shown: set<string>, s: Settings, p: Path, i: int, k: Key) returns (u: string)
    requires Presentable(db, order) && shown <= db.exports.Keys && ValidBackstores(BackstoresFor(db, order, s))
    requires Goal(Desired(db, order, shown, s), p, i, k)
    ensures u in order && u in db.exports && p == Home(s) && i == db.exports[u] && k == KeyOf(db.exports, u)
  {
    var c := Desired(db, order, shown, s);
    var t, g, l :| t in c.targets && g in t.tpgs && l in g.luns && p == Path(t.iqn, g.tag) && i == l.index
                   && l.backstore in KeyMap(c.backstores) && k == KeyMap(c.backstores)[l.backstore];
    u := LunIs(db.exports, order, l);
    DesiredKeyMap(db, order, s, u);
  }

  lemma LunIs(exports: map<string, int>, order: seq<string>, l: LUN) returns (u: string)
    requires (forall u | u in order :: u in exports) && l in LunsFor(exports, order)
    ensures u in order && l == LunFor(exports, u)
  {
    LunsAre(exports, order);
    var x :| 0 <= x < |order| && LunsFor(exports, order)[x] == l;
    u := order[x];
  }

  lemma DesiredKeyMap(db: Db, order: seq<string>, s: Settings, u: string)
    requires Presentable(db, order) && u in order && ValidBackstores(BackstoresFor(db, order, s))
    ensures BackstoreName(u) in KeyMap(BackstoresFor(db, order, s))
    ensures KeyMap(BackstoresFor(db, order, s))[BackstoreName(u)] == KeyOf(db.exports, u)
  {
    var bs := BackstoresFor(db, order, s);
    BackstoresAre(db, order, s);
    KeyMapAt(bs);
    var i :| 0 <= i < |order| && order[i] == u;
    assert bs[i] in bs;
  }

  /** The objects of the config are those of its list, each under its own key. */
  lemma DesiredKeys(db: Db, order: seq<string>, s: Settings)
    requires Presentable(db, order)
    ensures forall k :: k in Keys(BackstoresFor(db, order, s)) <==> exists u :: u in order && k == KeyOf(db.exports, u)
  {
    BackstoresAre(db, order, s);
    var bs := BackstoresFor(db, order, s);
    forall u | u in order ensures KeyOf(db.exports, u) in Keys(bs) {
      var i :| 0 <= i < |order| && order[i] == u;
      assert bs[i] in bs;
    }
  }

  /** Mode and write-cache claim come from the one setting. */
  lemma DesiredFlag(db: Db, order: seq<string>, s: Settings)
    requires Presentable(db, order)
    ensures FlagOf(BackstoresFor(db, order, s), s.writeBack)
  {
    BackstoresAre(db, order, s);
  }
}
