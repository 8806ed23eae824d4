/** The coordinator's state machine (appliance/appliance.go, appliance/translate.go,
    appliance/hosts.go, appliance/objects.go, appliance/clearpr.go). */
module Coordinator {
  import opened LioConfig
  import opened Kernel
  import opened Topology
  import opened Backstores
  import opened Ensure
  import opened Apply
  import opened Sync
  import opened Diff
  import opened Incremental
  import opened AppliedView
  import opened Database
  import opened Mutations
  import opened Translate
  import opened DesiredLio
  import opened Coherence
  import opened Api
  import opened Lookups

  /** What the kernel holds for one object: a reservation holder and registrations. */
  datatype Pr = Pr(holder: Option<string>, regs: set<string>)

  ghost predicate HeldOut(objs: map<Key, Obj>, withheld: map<string, string>) {
    forall u | u in withheld :: ValidUuid(u) && NotBuilt(objs, u)
  }

  /** The object is left out of the config although it is connected and ready. */
  ghost predicate LeftOut(db: Db, prClearing: string, withheld: map<string, string>, o: Object) {
    o in db.objects && o.uuid in Connected(db.conns) && o.state.Ready? && (o.uuid == prClearing || o.uuid in withheld)
  }

  /** Such an object is one /health tells about. */
  ghost predicate CoveredBy(db: Db, prClearing: string, withheld: map<string, string>, clearing: string, names: map<string, string>) {
    forall o | LeftOut(db, prClearing, withheld, o) :: o.uuid in names || clearing == o.name
  }

  /** What /health says of holds is the names they were made under. */
  ghost predicate Told(names: map<string, string>, clearing: string, o: Object) {
    o.name in names.Values || o.name == clearing
  }

  /** The object is left out under a name that /health does not give. */
  ghost predicate Unnamed(db: Db, prClearing: string, withheld: map<string, string>, clearing: string, names: map<string, string>, u: string) {
    exists o :: LeftOut(db, prClearing, withheld, o) && o.uuid == u && !Told(names, clearing, o)
  }

  /** No hold on another object was made under this one's name. */
  ghost predicate OwnName(names: map<string, string>, o: Object) {
    forall u | u in names && u != o.uuid :: names[u] != o.name
  }

  /** An object left out is named in /health exactly when it has not been renamed since it was held
      back, or is the one being cleared. */
  lemma ToldByName(db: Db, prClearing: string, withheld: map<string, string>, clearing: string, names: map<string, string>, o: Object)
    requires CoveredBy(db, prClearing, withheld, clearing, names) && LeftOut(db, prClearing, withheld, o) && OwnName(names, o)
    ensures clearing != o.name ==> o.uuid in names
    ensures Told(names, clearing, o) <==> clearing == o.name || names[o.uuid] == o.name
  {
  }

  /** What every pass keeps true of the tree, wherever it stops. */
  ghost predicate Kept(t: Tree, exports: map<string, int>, withheld: map<string, string>, s: Settings) {
    NoForeign(t.nodes, exports, s) && HeldOut(t.objs, withheld) && WeldSafe(t.objs, s.writeBack)
  }

  /** Each of the backstores is an object's, at the block size the object was made with. */
  ghost predicate BlocksBorn(bs: seq<Backstore>, born: map<string, int>) {
    forall b | b in bs :: exists u :: ValidUuid(u) && u in born && b.key.name == BackstoreName(u) && BlockSizeOf(b) == born[u]
  }

  /** What is known of the cached view: the config it was made for, the attributes that slipped
      through, and whether the tree was lost and nobody has noticed. */
  datatype Known = Known(asked: Config, missed: set<(string, Attr)>, lost: bool)

  /** What the cached view is worth: it describes the live tree but for what slipped through,
      unless the tree was lost. */
  ghost predicate Believed(t: Tree, applied: Option<Config>, known: Known, log: seq<Change>) {
    Believable(t, applied, known, log) == true // carried whole, not clause by clause
  }

  ghost predicate Believable(t: Tree, applied: Option<Config>, known: Known, log: seq<Change>) {
    && (applied.Some? ==> Valid(applied.value)) && BlocksBorn(known.asked.backstores, Born(log))
    && (applied.Some? && !known.lost ==> Describes(t, known.asked, applied.value, known.missed))
    && (known.lost ==> t == EMPTY_TREE)
  }

  /** cfg is what desiredLIO makes of db with the objects of out held back. */
  ghost predicate Asks(db: Db, order: seq<string>, out: set<string>, s: Settings, cfg: Config) {
    && Lists(order, Shown(db, out)) && Presentable(db, order) && Shown(db, out) <= db.exports.Keys
    && cfg == Desired(db, order, Shown(db, out), s) && Valid(cfg) && PortalsFit(cfg)
  }

  ghost predicate Asked(db: Db, out: set<string>, s: Settings, cfg: Config) {
    exists order :: Asks(db, order, out, s, cfg)
  }

  /** What a pass is for: the database and how it came about, the objects listed, those left out,
      and among these the ones held back. */
  datatype Aim = Aim(db: Db, log: seq<Change>, peak: nat, s: Settings, order: seq<string>, out: set<string>, withheld: map<string, string>)

  /** cfg is what is aimed at. */
  ghost predicate Aims(a: Aim, cfg: Config) {
    AimsAt(a, cfg) == true // carried whole, not clause by clause
  }

  ghost predicate AimsAt(a: Aim, cfg: Config) {
    Reachable(a.db, a.log, a.peak) && Asks(a.db, a.order, a.out, a.s, cfg) && a.withheld.Keys <= a.out
  }

  ghost predicate KeptFor(t: Tree, a: Aim) {
    Kept(t, a.db.exports, a.withheld, a.s) == true // likewise
  }

  /** A pass starts with nothing in its way. */
  lemma AimClear(t: Tree, a: Aim, cfg: Config)
    requires Aims(a, cfg) && KeptFor(t, a)
    ensures Valid(cfg) && PortalsFit(cfg) && NoClash(t.nodes, cfg)
  {
    NoForeignNoClash(t.nodes, a.db, a.order, Shown(a.db, a.out), a.s);
  }

  lemma AimMet(t: Tree, a: Aim, cfg: Config)
    requires Aims(a, cfg) && Realised(t, cfg)
    ensures InSync(t, a.db, a.out, a.s)
  {
  }

  lemma PassKeeps(t0: Tree, t1: Tree, a: Aim, cfg: Config, records: map<Key, seq<string>>)
    requires Aims(a, cfg) && KeptFor(t0, a)
    requires Toward(t0.nodes, t1.nodes, cfg) && ObjsFrom(t0.objs, t1.objs, cfg.backstores, records)
    ensures KeptFor(t1, a)
  {
    ReachableOk(a.db, a.log, a.peak);
    TowardKeepsNoForeign(t0.nodes, t1.nodes, a.db, a.order, Shown(a.db, a.out), a.s);
    ShownPresentable(a.db, a.order, a.out);
    DesiredFlag(a.db, a.order, a.s);
    forall u | u in a.withheld ensures NotBuilt(t1.objs, u) {
      StillNotBuilt(t0.objs, t1.objs, a.db, a.order, a.s, u);
    }
  }

  // ----- what is replayed -----

  /** What the file for a WWN holds, blank records aside. */
  function SavedFor(saved: map<string, seq<string>>, wwn: string): set<string> {
    if wwn in saved then set r | r in saved[wwn] && !Blank(r) else {}
  }

  /** The files of live objects change in any way, and no others. */
  function Touched(saved: map<string, seq<string>>, now: map<string, seq<string>>, live: set<string>): (r: map<string, seq<string>>)
    ensures forall w | w !in live :: (w in r <==> w in saved) && SavedFor(r, w) == SavedFor(saved, w)
  {
    (saved - live) + (map w | w in now && w in live :: now[w])
  }

  /** Where the provider answers for a backstore it is with what the file for its WWN holds, and
      with nothing where there is no file. */
  ghost predicate Answers(records: map<Key, seq<string>>, bs: seq<Backstore>, saved: map<string, seq<string>>) {
    forall k | k in records :: exists b :: b in bs && b.key == k && Given(records, k) == SavedFor(saved, b.wwn)
  }

  /** The APTPL provider (appliance/aptpl.go:45-84), asked for each backstore: what the file holds,
      nothing where there is no file, or no answer where it cannot be read or made out. */
  method Provide(bs: seq<Backstore>, saved: map<string, seq<string>>) returns (records: map<Key, seq<string>>)
    requires ValidBackstoreNames(bs)
    ensures Answers(records, bs, saved) && records.Keys <= Keys(bs)
  {
    records := map[];
    for i := 0 to |bs|
      invariant Answers(records, bs[..i], saved) && records.Keys <= Keys(bs[..i])
    {
      var damaged: bool := *;
      AnswersNext(records, bs, i, saved);
      if !damaged {
        records := records[bs[i].key := if bs[i].wwn in saved then saved[bs[i].wwn] else []];
      }
    }
    assert bs[..|bs|] == bs;
  }

  lemma AnswersNext(records: map<Key, seq<string>>, bs: seq<Backstore>, i: nat, saved: map<string, seq<string>>)
    requires i < |bs| && Answers(records, bs[..i], saved)
    ensures Answers(records, bs[..i + 1], saved) && Keys(bs[..i + 1]) == Keys(bs[..i]) + {bs[i].key}
    ensures Answers(records[bs[i].key := if bs[i].wwn in saved then saved[bs[i].wwn] else []], bs[..i + 1], saved)
  {
    var b, more := bs[i], records[bs[i].key := if bs[i].wwn in saved then saved[bs[i].wwn] else []];
    assert bs[..i + 1] == bs[..i] + [b];
    forall k | k in records ensures exists x :: x in bs[..i + 1] && x.key == k && Given(records, k) == SavedFor(saved, x.wwn) {
      var x :| x in bs[..i] && x.key == k && Given(records, k) == SavedFor(saved, x.wwn);
      assert x in bs[..i + 1];
    }
    forall k | k in more ensures exists x :: x in bs[..i + 1] && x.key == k && Given(more, k) == SavedFor(saved, x.wwn) {
      if k == b.key {
        assert b in bs[..i + 1] && Given(more, k) == SavedFor(saved, b.wwn);
      } else {
        var x :| x in bs[..i] && x.key == k && Given(records, k) == SavedFor(saved, x.wwn);
        assert x in bs[..i + 1] && Given(more, k) == Given(records, k);
      }
    }
  }

  /** No backstore of an object was given a record but those it had and those saved for it. */
  ghost predicate NoneAdded(o0: map<Key, Obj>, o1: map<Key, Obj>, os: seq<Object>, saved: map<string, seq<string>>) {
    forall o, k | o in os && k in o1 && k.name == BackstoreName(o.uuid) ::
      o1[k].loaded <= (if k in o0 then o0[k].loaded else {}) + SavedFor(saved, o.wwn)
  }

  /** An object's backstore that is enabled was enabled before, or has been given its whole file. */
  ghost predicate Replayed(o0: map<Key, Obj>, o1: map<Key, Obj>, os: seq<Object>, saved: map<string, seq<string>>) {
    forall o, k | o in os && k in o1 && k.name == BackstoreName(o.uuid) && o1[k].enabled ::
      (k in o0 && o0[k].enabled) || SavedFor(saved, o.wwn) <= o1[k].loaded
  }

  /** What every pass does for every object, wherever it stops: no live LUN is re-pointed, all of a
      saved file is replayed before the backstore is enabled, and nothing that is not saved. */
  ghost predicate Orderly(t0: Tree, t1: Tree, os: seq<Object>, saved: map<string, seq<string>>) {
    OrderlyAs(t0, t1, os, saved) == true // carried whole, not clause by clause
  }

  ghost predicate OrderlyAs(t0: Tree, t1: Tree, os: seq<Object>, saved: map<string, seq<string>>) {
    NothingMoved(t0.nodes, t1.nodes) && Replayed(t0.objs, t1.objs, os, saved) && NoneAdded(t0.objs, t1.objs, os, saved)
  }

  lemma AnswersFor(a: Aim, cfg: Config, records: map<Key, seq<string>>, saved: map<string, seq<string>>, o: Object, k: Key)
    requires Aims(a, cfg) && Answers(records, cfg.backstores, saved) && o in a.db.objects && k.name == BackstoreName(o.uuid)
    ensures k in records ==> Given(records, k) == SavedFor(saved, o.wwn)
  {
    if k in records {
      var b :| b in cfg.backstores && b.key == k && Given(records, k) == SavedFor(saved, b.wwn);
      BackstoreIsOf(a, cfg, b, o);
    }
  }

  /** The provider answers for every backstore of an object with the object's own file. */
  ghost predicate AnswersAll(records: map<Key, seq<string>>, os: seq<Object>, saved: map<string, seq<string>>) {
    forall o, k | o in os && k in records && k.name == BackstoreName(o.uuid) :: Given(records, k) == SavedFor(saved, o.wwn)
  }

  lemma AnswersKnown(a: Aim, cfg: Config, records: map<Key, seq<string>>, saved: map<string, seq<string>>)
    requires Aims(a, cfg) && Answers(records, cfg.backstores, saved)
    ensures AnswersAll(records, a.db.objects, saved)
  {
    forall o, k | o in a.db.objects && k in records && k.name == BackstoreName(o.uuid) ensures Given(records, k) == SavedFor(saved, o.wwn) {
      AnswersFor(a, cfg, records, saved, o, k);
    }
  }

  lemma AnswersAdd(o0: map<Key, Obj>, o1: map<Key, Obj>, os: seq<Object>, records: map<Key, seq<string>>, saved: map<string, seq<string>>)
    requires AnswersAll(records, os, saved) && LoadedFrom(o0, o1, records)
    ensures NoneAdded(o0, o1, os, saved)
  {
  }

  lemma AnswersReplay(o0: map<Key, Obj>, o1: map<Key, Obj>, os: seq<Object>, records: map<Key, seq<string>>, saved: map<string, seq<string>>)
    requires AnswersAll(records, os, saved) && LoadedFirst(o0, o1, records)
    ensures Replayed(o0, o1, os, saved)
  {
  }

  /** Links that are old or desired, with none in the way of a desired one, are the old ones. */
  lemma TowardStays(n0: map<Path, Node>, n1: map<Path, Node>, c: Config)
    requires Toward(n0, n1, c) && NoClash(n0, c)
    ensures NothingMoved(n0, n1)
  {
  }

  lemma BackstoreIsOf(a: Aim, cfg: Config, b: Backstore, o: Object)
    requires Aims(a, cfg) && b in cfg.backstores && o in a.db.objects && b.key.name == BackstoreName(o.uuid)
    ensures b.wwn == o.wwn
  {
    var x := ObjectBehind(a, cfg, b);
    ReachableOk(a.db, a.log, a.peak);
    NameInjective(x.uuid, o.uuid);
    KeyUnique(a.db.objects, ObjectKey, x, o);
  }

  lemma ObjectBehind(a: Aim, cfg: Config, b: Backstore) returns (o: Object)
    requires Aims(a, cfg) && b in cfg.backstores
    ensures o in a.db.objects && o.uuid in a.db.exports && o.uuid in a.order && ValidUuid(o.uuid) && o.blockSize in {512, 4096}
    ensures b == BackstoreFor(o, a.db.exports, a.s)
  {
    ReachableOk(a.db, a.log, a.peak);
    BackstoresAre(a.db, a.order, a.s);
    var i :| 0 <= i < |cfg.backstores| && cfg.backstores[i] == b;
    assert a.order[i] in a.order;
    o := Find(a.db.objects, a.order[i]).value;
    FindIs(a.db.objects, a.order[i]);
  }

  // ----- the passes -----

  lemma PassLeaves(t0: Tree, t1: Tree, a: Aim, cfg: Config, records: map<Key, seq<string>>, saved: map<string, seq<string>>)
    requires Aims(a, cfg) && KeptFor(t0, a) && Answers(records, cfg.backstores, saved)
    requires Toward(t0.nodes, t1.nodes, cfg) && ObjsFrom(t0.objs, t1.objs, cfg.backstores, records)
    ensures KeptFor(t1, a) && Orderly(t0, t1, a.db.objects, saved)
  {
    PassKeeps(t0, t1, a, cfg, records);
    AnswersKnown(a, cfg, records, saved);
    AnswersAdd(t0.objs, t1.objs, a.db.objects, records, saved);
    AnswersReplay(t0.objs, t1.objs, a.db.objects, records, saved);
    AimClear(t0, a, cfg);
    TowardStays(t0.nodes, t1.nodes, cfg);
  }

  lemma DesiredBorn(a: Aim, cfg: Config)
    requires Aims(a, cfg)
    ensures BlocksBorn(cfg.backstores, Born(a.log))
  {
    ReachableBorn(a.db, a.log, a.peak);
    forall b | b in cfg.backstores
      ensures exists u :: ValidUuid(u) && u in Born(a.log) && b.key.name == BackstoreName(u) && BlockSizeOf(b) == Born(a.log)[u]
    {
      var o := ObjectBehind(a, cfg, b);
      BlockRead(o, a.db.exports, a.s);
    }
  }

  lemma BlockRead(o: Object, exports: map<string, int>, s: Settings)
    requires o.uuid in exports && o.blockSize in {512, 4096}
    ensures BlockSizeOf(BackstoreFor(o, exports, s)) == o.blockSize
  {
  }

  lemma BornSteady(was: seq<Backstore>, now: seq<Backstore>, born: map<string, int>)
    requires BlocksBorn(was, born) && BlocksBorn(now, born)
    ensures SteadyBlocks(was, now)
  {
    forall x, b | x in was && b in now && x.key == b.key ensures BlockSizeOf(x) == BlockSizeOf(b) {
      var u :| ValidUuid(u) && u in born && x.key.name == BackstoreName(u) && BlockSizeOf(x) == born[u];
      var v :| ValidUuid(v) && v in born && b.key.name == BackstoreName(v) && BlockSizeOf(b) == born[v];
      NameInjective(u, v);
    }
  }

  lemma BornGrows(bs: seq<Backstore>, log: seq<Change>, ch: Change)
    requires BlocksBorn(bs, Born(log))
    ensures BlocksBorn(bs, Born(log + [ch]))
  {
    BornNext(log, ch);
    forall b | b in bs
      ensures exists u :: ValidUuid(u) && u in Born(log + [ch]) && b.key.name == BackstoreName(u) && BlockSizeOf(b) == Born(log + [ch])[u]
    {
      var u :| ValidUuid(u) && u in Born(log) && b.key.name == BackstoreName(u) && BlockSizeOf(b) == Born(log)[u];
    }
  }

  /** desiredLIO emits a backstore only together with its LUN. */
  lemma DesiredExported(t: Tree, a: Aim, cfg: Config)
    requires Aims(a, cfg) && Realised(t, cfg)
    ensures AllExported(t, cfg.backstores)
  {
    forall b | b in cfg.backstores ensures Exported(t, b.key) {
      var o := ObjectBehind(a, cfg, b);
      DesiredKeyMap(a.db, a.order, a.s, o.uuid);
      LunListed(a.db.exports, a.order, o.uuid);
      var tg := cfg.targets[0];
      var g := tg.tpgs[0];
      assert tg in cfg.targets && g in tg.tpgs;
      assert NodeRealised(t.nodes[Path(tg.iqn, g.tag)], g, KeyMap(cfg.backstores));
      assert LunFor(a.db.exports, o.uuid) in g.luns;
    }
  }

  lemma {:induction false} LunListed(exports: map<string, int>, order: seq<string>, u: string)
    requires (forall v | v in order :: v in exports) && u in order
    ensures LunFor(exports, u) in LunsFor(exports, order)
  {
    if order[|order| - 1] != u {
      LunListed(exports, order[..|order| - 1], u);
    }
  }

  /** What is missed now was missed before, or is not at its desired value. */
  ghost predicate MissedSince(objs: map<Key, Obj>, bs: seq<Backstore>, was: set<(string, Attr)>, now: set<(string, Attr)>) {
    forall b, a | b in bs && a in b.attrs && (b.key.name, a) in now :: (b.key.name, a) in was || !LiveAt(objs, b, a)
  }

  lemma SlippedSince(t0: Tree, t1: Tree, asked: Config, prev: Config, next: Config, d: Delta, refused: seq<Drift>,
                     unread: map<string, set<Attr>>, missed: set<(string, Attr)>)
    requires Passed(t0, t1, prev, next, d, refused) && Describes(t0, asked, prev, missed)
    ensures MissedSince(t1.objs, next.backstores, missed, Slipped(next, d, refused, unread, missed))
  {
    forall b, a | b in next.backstores && a in b.attrs && (b.key.name, a) in Slipped(next, d, refused, unread, missed) && (b.key.name, a) !in missed
      ensures !LiveAt(t1.objs, b, a)
    {
      var x :| x in next.backstores && SlippedAt(x, a, d, refused, unread, missed) && x.key.name == b.key.name;
      KeyUnique(next.backstores, NameKey, x, b);
      UnreadAt(t0, t1, asked, prev, next, d, refused, unread, missed, b, a);
    }
  }

  /** One Sync of the desired config. */
  method FullPass(fs: Configfs, cfg: Config, saved: map<string, seq<string>>, ghost a: Aim) returns (err: Err, view: Config)
    requires fs.Inv() && Aims(a, cfg) && KeptFor(fs.tree, a)
    modifies fs
    ensures fs.Inv() && KeptFor(fs.tree, a) && fs.repoints == old(fs.repoints)
    ensures Orderly(old(fs.tree), fs.tree, a.db.objects, saved)
    ensures err == Ok ==> InSync(fs.tree, a.db, a.out, a.s) && Believed(fs.tree, Some(view), Known(cfg, {}, false), a.log)
  {
    AimClear(fs.tree, a, cfg);
    var records := Provide(cfg.backstores, saved);
    var drift;
    err, drift := SyncConfig(fs, cfg, records);
    PassLeaves(old(fs.tree), fs.tree, a, cfg, records, saved);
    view := MakeView(cfg, drift);
    if err == Ok {
      FullBelieved(fs.tree, cfg, drift, a);
    }
  }

  lemma FullBelieved(t: Tree, cfg: Config, drift: seq<Drift>, a: Aim)
    requires Aims(a, cfg) && Realised(t, cfg) && BackstoresDone(t.objs, cfg.backstores, drift) && Geometry(t.objs)
    ensures InSync(t, a.db, a.out, a.s) && Believed(t, Some(View(cfg, drift)), Known(cfg, {}, false), a.log)
  {
    AimMet(t, a, cfg);
    FullViewDescribes(t, cfg, drift);
    FullViewValid(t, cfg, drift);
    DesiredBorn(a, cfg);
  }

  /** With no view there is little to believe. */
  lemma NothingBelieved(a: Aim, cfg: Config)
    requires Aims(a, cfg)
    ensures forall t, missed :: Believed(t, None, Known(cfg, missed, false), a.log)
  {
    DesiredBorn(a, cfg);
  }

  lemma BelievedValid(t: Tree, prev: Config, known: Known, log: seq<Change>)
    requires Believed(t, Some(prev), known, log)
    ensures Valid(prev)
  {
  }

  /** One ApplyDelta from the cached view to the desired config, and the drift re-derived.  Stale
      where no delta can say it, or the tree is not the one the view is of. */
  method DeltaPass(fs: Configfs, prev: Config, cfg: Config, saved: map<string, seq<string>>, ghost a: Aim, ghost known: Known)
    returns (err: Err, view: Config, ghost missed: set<(string, Attr)>)
    requires fs.Inv() && Aims(a, cfg) && KeptFor(fs.tree, a) && Believed(fs.tree, Some(prev), known, a.log)
    modifies fs
    ensures fs.Inv() && KeptFor(fs.tree, a) && fs.repoints == old(fs.repoints)
    ensures Orderly(old(fs.tree), fs.tree, a.db.objects, saved)
    ensures err == Ok ==> InSync(fs.tree, a.db, a.out, a.s) && Believed(fs.tree, Some(view), Known(cfg, missed, false), a.log)
    ensures err == Ok && ReadWell(fs.misreads, old(fs.looks), fs.looks) ==> missed == {}
    ensures err == Stale ==> fs.tree == old(fs.tree)
    ensures err == Ok ==> MissedSince(fs.tree.objs, cfg.backstores, known.missed, missed)
  {
    ghost var d, refused;
    err, d, refused := DeltaApply(fs, prev, cfg, saved, a, known);
    view, missed := cfg, {};
    if err == Ok {
      view, missed := Remember(fs, old(fs.tree), prev, d, cfg, refused, a.log, known);
    }
  }

  method DeltaApply(fs: Configfs, prev: Config, cfg: Config, saved: map<string, seq<string>>, ghost a: Aim, ghost known: Known)
    returns (err: Err, d: Delta, refused: seq<Drift>)
    requires fs.Inv() && Aims(a, cfg) && KeptFor(fs.tree, a) && Believed(fs.tree, Some(prev), known, a.log)
    modifies fs`tree, fs`writes, fs`repoints, fs`owed
    ensures fs.Inv() && KeptFor(fs.tree, a) && fs.repoints == old(fs.repoints)
    ensures Orderly(old(fs.tree), fs.tree, a.db.objects, saved)
    ensures err == Ok ==> Landed(old(fs.tree), fs.tree, prev, d, cfg, refused, a.log, known) && InSync(fs.tree, a.db, a.out, a.s)
    ensures err == Ok ==> AllExported(fs.tree, cfg.backstores)
    ensures err == Stale ==> fs.tree == old(fs.tree)
  {
    AimClear(fs.tree, a, cfg);
    BelievedValid(fs.tree, prev, known, a.log);
    var ok;
    d, ok := DiffConfigs(prev, cfg);
    if !ok {
      return Stale, d, [];
    }
    err, refused := DeltaRun(fs, prev, d, cfg, saved, a, known);
  }

  method DeltaRun(fs: Configfs, ghost prev: Config, d: Delta, cfg: Config, saved: map<string, seq<string>>, ghost a: Aim, ghost known: Known)
    returns (err: Err, refused: seq<Drift>)
    requires fs.Inv() && Aims(a, cfg) && KeptFor(fs.tree, a)
    requires Believed(fs.tree, Some(prev), known, a.log) && IsDelta(prev, cfg, d)
    modifies fs`tree, fs`writes, fs`repoints, fs`owed
    ensures fs.Inv() && KeptFor(fs.tree, a) && fs.repoints == old(fs.repoints)
    ensures Orderly(old(fs.tree), fs.tree, a.db.objects, saved)
    ensures err == Ok ==> Landed(old(fs.tree), fs.tree, prev, d, cfg, refused, a.log, known) && InSync(fs.tree, a.db, a.out, a.s)
    ensures err == Ok ==> AllExported(fs.tree, cfg.backstores)
    ensures err == Stale ==> fs.tree == old(fs.tree)
  {
    AimClear(fs.tree, a, cfg);
    var records := Provide(cfg.backstores, saved);
    BelievedValid(fs.tree, prev, known, a.log);
    err, refused := ApplyDelta(fs, cfg, d, records, prev);
    PassLeaves(old(fs.tree), fs.tree, a, cfg, records, saved);
    if err == Ok {
      DeltaLanded(old(fs.tree), fs.tree, prev, d, cfg, refused, a, known);
    }
  }

  /** What an incremental pass that succeeded has come from and to. */
  ghost predicate Landed(t0: Tree, t1: Tree, prev: Config, d: Delta, cfg: Config, refused: seq<Drift>, log: seq<Change>, known: Known) {
    LandedAt(t0, t1, prev, d, cfg, refused, log, known) == true // carried whole, not clause by clause
  }

  ghost predicate LandedAt(t0: Tree, t1: Tree, prev: Config, d: Delta, cfg: Config, refused: seq<Drift>, log: seq<Change>, known: Known) {
    && Passed(t0, t1, prev, cfg, d, refused) && Describes(t0, known.asked, prev, known.missed)
    && BlocksBorn(known.asked.backstores, Born(log)) && BlocksBorn(cfg.backstores, Born(log))
    && Valid(cfg) && Realised(t1, cfg)
  }

  lemma DeltaLanded(t0: Tree, t1: Tree, prev: Config, d: Delta, cfg: Config, refused: seq<Drift>, a: Aim, known: Known)
    requires Aims(a, cfg) && Believed(t0, Some(prev), known, a.log) && IsDelta(prev, cfg, d)
    requires PathsOf(cfg.targets) <= t0.nodes.Keys && (Realised(t0, prev) ==> Realised(t1, cfg))
    requires BackstoresDone(t1.objs, d.add.backstores, refused) && OthersAsWere(t0, t1, prev, cfg, d)
    ensures Landed(t0, t1, prev, d, cfg, refused, a.log, known) && InSync(t1, a.db, a.out, a.s) && AllExported(t1, cfg.backstores)
  {
    HomeWanted(a.db, a.order, a.out, a.s, cfg);
    assert ValidBackstoreNames(cfg.backstores);
    AimMet(t1, a, cfg);
    DesiredBorn(a, cfg);
    DesiredExported(t1, a, cfg);
  }

  /** What to remember of it. */
  method Remember(fs: Configfs, ghost t0: Tree, ghost prev: Config, ghost d: Delta, cfg: Config, ghost refused: seq<Drift>, ghost log: seq<Change>, ghost known: Known)
    returns (view: Config, ghost missed: set<(string, Attr)>)
    requires fs.Inv() && Landed(t0, fs.tree, prev, d, cfg, refused, log, known)
    modifies fs`looks
    ensures fs.Inv() && Believed(fs.tree, Some(view), Known(cfg, missed, false), log)
    ensures ReadWell(fs.misreads, old(fs.looks), fs.looks) && AllExported(fs.tree, cfg.backstores) ==> missed == {}
    ensures MissedSince(fs.tree.objs, cfg.backstores, known.missed, missed)
  {
    LandedNames(t0, fs.tree, prev, d, cfg, refused, log, known);
    var drift, unread := VerifyDrift(fs, cfg);
    view := MakeView(cfg, drift);
    missed := Slipped(cfg, d, refused, unread, known.missed);
    LandedBelieved(t0, fs.tree, prev, d, cfg, refused, log, known, drift, unread);
    LandedMissed(t0, fs.tree, prev, d, cfg, refused, log, known, unread);
  }

  lemma LandedNames(t0: Tree, t1: Tree, prev: Config, d: Delta, cfg: Config, refused: seq<Drift>, log: seq<Change>, known: Known)
    requires Landed(t0, t1, prev, d, cfg, refused, log, known)
    ensures ValidBackstoreNames(cfg.backstores) && forall b | b in cfg.backstores :: b.key in t1.objs
  {
  }

  lemma LandedBelieved(t0: Tree, t1: Tree, prev: Config, d: Delta, cfg: Config, refused: seq<Drift>, log: seq<Change>, known: Known,
                       drift: seq<Drift>, unread: map<string, set<Attr>>)
    requires Landed(t0, t1, prev, d, cfg, refused, log, known) && AllRecorded(t1.objs, cfg.backstores, drift, unread) && Geometry(t1.objs)
    ensures Believed(t1, Some(View(cfg, drift)), Known(cfg, Slipped(cfg, d, refused, unread, known.missed), false), log)
  {
    BornSteady(known.asked.backstores, cfg.backstores, Born(log));
    DeltaViewDescribes(t0, t1, known.asked, prev, cfg, d, refused, drift, unread, known.missed);
    DeltaViewValid(t1, cfg, drift, unread);
  }

  lemma LandedMissed(t0: Tree, t1: Tree, prev: Config, d: Delta, cfg: Config, refused: seq<Drift>, log: seq<Change>, known: Known, unread: map<string, set<Attr>>)
    requires Landed(t0, t1, prev, d, cfg, refused, log, known)
    ensures MissedSince(t1.objs, cfg.backstores, known.missed, Slipped(cfg, d, refused, unread, known.missed))
    ensures AllSeen(t1, cfg.backstores, unread) && AllExported(t1, cfg.backstores) ==> Slipped(cfg, d, refused, unread, known.missed) == {}
  {
    SlippedSince(t0, t1, known.asked, prev, cfg, d, refused, unread, known.missed);
    DeltaThere(t0, t1, known.asked, prev, cfg, d, refused, known.missed);
    if AllSeen(t1, cfg.backstores, unread) && AllExported(t1, cfg.backstores) {
      NothingSlips(t1, cfg, d, refused, unread, known.missed);
    }
  }

  /** What a reconcile leaves: on success a view that describes the tree, with nothing missed
      unless a read failed, and nothing newly missed that is as desired. */
  ghost predicate Reconciled(t: Tree, err: Err, cfg: Config, view: Option<Config>, was: Known, now: Known, clean: bool, log: seq<Change>) {
    && Believed(t, view, now, log) && !now.lost && (err == Ok <==> view.Some?)
    && (err == Ok ==> now.asked == cfg && (clean ==> now.missed == {}) && MissedSince(t.objs, cfg.backstores, was.missed, now.missed))
  }

  /** Drive the tree to cfg by whichever path can be trusted: incremental from the cached view
      where a delta can say it, otherwise in full; any failure discards the view. */
  method ReconcileTo(fs: Configfs, cfg: Config, applied: Option<Config>, saved: map<string, seq<string>>, ghost a: Aim, ghost known: Known)
    returns (err: Err, view: Option<Config>, ghost now: Known)
    requires fs.Inv() && Aims(a, cfg) && KeptFor(fs.tree, a) && Believed(fs.tree, applied, known, a.log)
    modifies fs
    ensures fs.Inv() && KeptFor(fs.tree, a) && fs.repoints == old(fs.repoints)
    ensures Orderly(old(fs.tree), fs.tree, a.db.objects, saved)
    ensures Reconciled(fs.tree, err, cfg, view, known, now, ReadWell(fs.misreads, old(fs.looks), fs.looks), a.log)
    ensures err == Ok ==> InSync(fs.tree, a.db, a.out, a.s)
  {
    NothingBelieved(a, cfg);
    now := Known(cfg, {}, false);
    var got;
    if applied.Some? {
      ghost var missed;
      err, got, missed := DeltaPass(fs, applied.value, cfg, saved, a, known);
      if err != Stale {
        view, now := if err == Ok then Some(got) else None, Known(cfg, missed, false);
        return;
      }
    }
    err, got := FullPass(fs, cfg, saved, a);
    view := if err == Ok then Some(got) else None;
  }

  /** What is known of the view is about the config that db asks for, and it misses nothing unless a
      read failed, and nothing newly that is as desired. */
  ghost predicate Current(t: Tree, db: Db, out: set<string>, s: Settings, was: set<(string, Attr)>, known: Known, clean: bool) {
    CurrentAs(t, db, out, s, was, known, clean) == true // carried whole, not clause by clause
  }

  ghost predicate CurrentAs(t: Tree, db: Db, out: set<string>, s: Settings, was: set<(string, Attr)>, known: Known, clean: bool) {
    && Asked(db, out, s, known.asked) && (clean ==> known.missed == {})
    && MissedSince(t.objs, known.asked.backstores, was, known.missed)
  }

  lemma HomeWanted(db: Db, order: seq<string>, out: set<string>, s: Settings, cfg: Config)
    requires Asks(db, order, out, s, cfg)
    ensures Home(s) in PathsOf(cfg.targets)
  {
    var t := cfg.targets[0];
    assert t in cfg.targets && t.tpgs[0] in t.tpgs;
  }

  method BuildAsked(db: Db, out: set<string>, s: Settings, ghost log: seq<Change>, ghost peak: nat)
    returns (cfg: Config, order: seq<string>)
    requires Reachable(db, log, peak) && SettingsOk(s)
    ensures Asks(db, order, out, s, cfg)
  {
    ReachableOk(db, log, peak);
    var exports;
    cfg, exports, order := Build(db, out, s);
  }

  lemma FullViewValid(t: Tree, c: Config, drift: seq<Drift>)
    requires Valid(c) && AttrsBut(t.objs, View(c, drift).backstores, {}) && Geometry(t.objs)
    ensures Valid(View(c, drift))
  {
    forall b | b in View(c, drift).backstores && BlockSize in b.attrs ensures ValidBlockSize(b.attrs[BlockSize]) {
      assert LiveAt(t.objs, b, BlockSize);
    }
    ViewValid(c, drift);
  }

  lemma DeltaViewValid(t: Tree, c: Config, drift: seq<Drift>, unread: map<string, set<Attr>>)
    requires Valid(c) && AllRecorded(t.objs, c.backstores, drift, unread) && Geometry(t.objs)
    ensures Valid(View(c, drift))
  {
    var v := View(c, drift);
    forall b | b in v.backstores && BlockSize in b.attrs ensures ValidBlockSize(b.attrs[BlockSize]) {
      var i :| 0 <= i < |v.backstores| && v.backstores[i] == b;
      var x := c.backstores[i];
      assert x in c.backstores;
      assert Recorded(x, t.objs[x.key], drift, unread[x.key.name]);
    }
    ViewValid(c, drift);
  }

  ghost predicate Sound(t: Tree, db: Db, log: seq<Change>, peak: nat, s: Settings, applied: Option<Config>, known: Known,
                        prClearing: string, withheld: map<string, string>, clearing: string, names: map<string, string>) {
    && SettingsOk(s) && Reachable(db, log, peak)
    && Kept(t, db.exports, withheld, s) && Believed(t, applied, known, log)
    && Marked(withheld, prClearing, log) && CoveredBy(db, prClearing, withheld, clearing, names)
  }

  /** A lost tree breaks no promise, as long as it is known to be possible. */
  lemma LostSound(t: Tree, db: Db, log: seq<Change>, peak: nat, s: Settings, applied: Option<Config>, known: Known,
                  prClearing: string, withheld: map<string, string>, clearing: string, names: map<string, string>)
    requires Sound(t, db, log, peak, s, applied, known, prClearing, withheld, clearing, names)
    ensures Sound(EMPTY_TREE, db, log, peak, s, applied, known.(lost := true), prClearing, withheld, clearing, names)
  {
  }

  /** Between operations no clear is in flight, and whatever is left out is published as withheld. */
  ghost predicate AtRest(db: Db, prClearing: string, withheld: map<string, string>, clearing: string, names: map<string, string>) {
    clearing == "" && names == withheld && (prClearing in withheld || prClearing !in Uuids(db.objects))
  }

  ghost predicate Marked(withheld: map<string, string>, prClearing: string, log: seq<Change>) {
    withheld.Keys <= Ever(log) && (prClearing == "" || prClearing in Ever(log))
  }

  lemma NoEmptyUuid(db: Db, log: seq<Change>, peak: nat)
    requires Reachable(db, log, peak)
    ensures "" !in Uuids(db.objects)
  {
    ReachableOk(db, log, peak);
    assert forall o | o in db.objects :: ValidUuid(o.uuid);
  }

  /** The WWNs of objects that have a backstore. */
  function LiveWwns(objs: map<Key, Obj>, os: seq<Object>): set<string> {
    set o | o in os && (exists k | k in objs :: k.name == BackstoreName(o.uuid)) :: o.wwn
  }

  /** How a write of the database file ends (appliance/appliance.go:870-946). */
  datatype Persisted = NotWritten | NotDurable | Durable

  datatype Outcome = Done | AlreadyDone | NoSuch | Conflict | BadInput | Degraded | Untranslatable
                   | NotStored | StoredNotDurable | NotReconciled

  /** The change was refused before it reached the disk. */
  predicate Undone(r: Outcome) { r in {Untranslatable, NotStored} }

  function Max(a: nat, b: nat): nat { if a < b then b else a }

  /** A change made at rest leaves nothing uncovered. */
  lemma ChangeCovered(db: Db, ch: Change, log: seq<Change>, peak: nat, prClearing: string, withheld: map<string, string>)
    requires Reachable(db, log, peak) && Allowed(db, ch, Ever(log)) && Marked(withheld, prClearing, log)
    requires AtRest(db, prClearing, withheld, "", withheld)
    ensures AtRest(Changed(db, ch), prClearing, withheld, "", withheld)
    ensures CoveredBy(Changed(db, ch), prClearing, withheld, "", withheld)
  {
    ReachableOk(db, log, peak);
    ChangeUuids(db, ch, Uuids(db.objects));
  }

  lemma ChangeMarked(withheld: map<string, string>, prClearing: string, log: seq<Change>, ch: Change)
    requires Marked(withheld, prClearing, log)
    ensures Marked(withheld, prClearing, log + [ch])
  {
    EverNext(log + [ch]);
    assert (log + [ch])[..|log|] == log;
  }

  /** A change made on a tree that is in sync, or empty, gives no index to two objects. */
  lemma ChangeNoForeign(t: Tree, db: Db, ch: Change, log: seq<Change>, peak: nat, out: set<string>, s: Settings)
    requires Reachable(db, log, peak) && Allowed(db, ch, Ever(log)) && NoForeign(t.nodes, db.exports, s)
    requires t == EMPTY_TREE || InSync(t, db, out, s)
    ensures NoForeign(t.nodes, Changed(db, ch).exports, s)
  {
    if t != EMPTY_TREE {
      ChangeSteps(db, ch, log, peak);
      FreshIndexUnlinked(t, db, out, s, Changed(db, ch).exports);
    }
  }

  lemma ChangeSteps(db: Db, ch: Change, log: seq<Change>, peak: nat)
    requires Reachable(db, log, peak) && Allowed(db, ch, Ever(log))
    ensures ExportsStep(db.exports, Changed(db, ch).exports)
  {
    ReachableOk(db, log, peak);
    ChangeBelow(db, ch, Ever(log), Max(peak, |Changed(db, ch).exports|));
  }

  lemma ChangeReachable(db: Db, ch: Change, log: seq<Change>, peak: nat)
    requires Reachable(db, log, peak) && Allowed(db, ch, Ever(log))
    ensures Reachable(Changed(db, ch), log + [ch], Max(peak, |Changed(db, ch).exports|))
  {
    ReachableMore(db, log, peak, Max(peak, |Changed(db, ch).exports|));
    ReachableNext(db, log, Max(peak, |Changed(db, ch).exports|), ch);
  }

  lemma RestoredReachable(backup: Db, before: seq<Change>, n: nat, db: Db)
    requires Reachable(db, before, n) && backup == SnapshotOf(db)
    ensures Reachable(backup, before + [RolledBack], Max(n, |backup.exports|))
  {
    ChangeReachable(db, RolledBack, before, n);
  }

  lemma ChangeUnseen(db: Db, ch: Change, t: Tree, out: set<string>, s: Settings, log: seq<Change>, peak: nat)
    requires Reachable(db, log, peak) && Allowed(db, ch, Ever(log)) && SamePresented(db, Changed(db, ch), out)
    ensures InSync(t, db, out, s) ==> InSync(t, Changed(db, ch), out, s)
  {
    ReachableOk(db, log, peak);
    ChangeOk(db, ch, Ever(log));
    if InSync(t, db, out, s) {
      StillInSync(t, db, Changed(db, ch), out, s);
    }
  }

  lemma RestCovered(db: Db, prClearing: string, withheld: map<string, string>, clearing: string, names: map<string, string>)
    requires AtRest(db, prClearing, withheld, clearing, names)
    ensures AtRest(SnapshotOf(db), prClearing, withheld, clearing, names)
    ensures CoveredBy(db, prClearing, withheld, clearing, names)
  {
  }

  /** The file holds the database in memory but for what a snapshot drops, and whatever version of
      it a crash brings back is one the API can reach. */
  ghost predicate OnDisk(disk: Db, versions: set<Db>, db: Db) {
    OnFile(disk, versions, db) == true // carried whole, not clause by clause
  }

  ghost predicate OnFile(disk: Db, versions: set<Db>, db: Db) {
    SnapshotOf(disk) == SnapshotOf(db) && Recoverable(disk, versions)
  }

  ghost predicate Storable(db: Db) {
    exists log, peak :: Reachable(db, log, peak)
  }

  ghost predicate Recoverable(disk: Db, versions: set<Db>) {
    disk in versions && forall v {:trigger Storable(v)} | v in versions :: Storable(v)
  }

  lemma RecoverableStep(disk: Db, versions: set<Db>, next: Db, log: seq<Change>, peak: nat)
    requires Recoverable(disk, versions) && Reachable(next, log, peak)
    ensures Recoverable(next, versions + {next}) && Recoverable(next, {next})
  {
    assert Storable(next);
  }

  /** Going back to backup, the snapshot of db, is safe. */
  ghost predicate Restorable(t: Tree, disk: Db, versions: set<Db>, backup: Db, db: Db, before: seq<Change>, n: nat, s: Settings, lastErr: Option<Err>, known: Known,
                             prClearing: string, withheld: map<string, string>, clearing: string, names: map<string, string>) {
    && Reachable(db, before, n) && backup == SnapshotOf(db)
    && AtRest(backup, prClearing, withheld, clearing, names) && Marked(withheld, prClearing, before)
    && NoForeign(t.nodes, backup.exports, s)
    && (lastErr.None? ==> known.lost || InSync(t, backup, withheld.Keys + {prClearing}, s))
    && OnDisk(disk, versions, backup) && BlocksBorn(known.asked.backstores, Born(before))
  }

  ghost predicate CanRestore(t: Tree, disk: Db, versions: set<Db>, backup: Db, db: Db, before: seq<Change>, n: nat, s: Settings, lastErr: Option<Err>, known: Known,
                             prClearing: string, withheld: map<string, string>, clearing: string, names: map<string, string>) {
    Restorable(t, disk, versions, backup, db, before, n, s, lastErr, known, prClearing, withheld, clearing, names) == true
  }

  lemma SnapshotRestorable(t: Tree, disk: Db, versions: set<Db>, db: Db, before: seq<Change>, n: nat, s: Settings, lastErr: Option<Err>, known: Known,
                           prClearing: string, withheld: map<string, string>, clearing: string, names: map<string, string>)
    requires Reachable(db, before, n) && AtRest(db, prClearing, withheld, clearing, names) && Marked(withheld, prClearing, before)
    requires NoForeign(t.nodes, db.exports, s) && (lastErr.None? ==> known.lost || InSync(t, db, withheld.Keys + {prClearing}, s))
    requires OnDisk(disk, versions, db) && BlocksBorn(known.asked.backstores, Born(before))
    ensures CanRestore(t, disk, versions, SnapshotOf(db), db, before, n, s, lastErr, known, prClearing, withheld, clearing, names)
  {
    SnapshotAlike(db, t, withheld.Keys + {prClearing}, s, before, n);
  }

  lemma RestCoveredAs(db: Db, prClearing: string, withheld: map<string, string>, name: string)
    requires AtRest(db, prClearing, withheld, "", withheld)
    ensures CoveredBy(db, prClearing, withheld, name, withheld)
  {
  }

  /** A hold is lifted only from objects that are gone. */
  ghost predicate OnlyGoneLifted(w0: map<string, string>, w1: map<string, string>, os: seq<Object>) {
    forall u | u in w0 && u !in w1 :: u !in Uuids(os)
  }

  /** No backstore of the object was given a saved record. */
  ghost predicate Unreplayed(objs: map<Key, Obj>, u: string) {
    forall k | k in objs && k.name == BackstoreName(u) :: objs[k].loaded == {}
  }

  /** A hold is lifted from o alone, and only to rebuild it with no saved record replayed. */
  ghost predicate HoldsKept(w0: map<string, string>, w1: map<string, string>, o: Object, rebuilt: bool, objs: map<Key, Obj>) {
    && (forall u | u in w0 && u !in w1 :: u == o.uuid && rebuilt)
    && (rebuilt ==> Unreplayed(objs, o.uuid))
  }

  lemma NewUnreplayed(t0: Tree, t1: Tree, os: seq<Object>, saved: map<string, seq<string>>, o: Object)
    requires Orderly(t0, t1, os, saved) && o in os && o.wwn !in saved && NotBuilt(t0.objs, o.uuid)
    ensures Unreplayed(t1.objs, o.uuid)
  {
  }

  lemma SnapshotAlike(db: Db, t: Tree, out: set<string>, s: Settings, log: seq<Change>, peak: nat)
    requires Reachable(db, log, peak)
    ensures InSync(t, db, out, s) ==> InSync(t, SnapshotOf(db), out, s)
  {
    ReachableOk(db, log, peak);
    if InSync(t, db, out, s) {
      StillInSync(t, db, SnapshotOf(db), out, s);
    }
  }

  // ----- when an operation is refused -----

  /** Refusals of Connect, and exactly when: no such object or host, an object that is not ready or
      a seat that is taken, a LUN that cannot be, and a repeat of a connection there is. */
  ghost predicate ConnectAnswer(db: Db, kind: Kind, ref: string, hostRef: string, lun: Option<int>, r: Outcome) {
    ConnectRefusals(db, kind, ref, hostRef, lun, r) == true // carried whole, not clause by clause
  }

  ghost predicate ConnectRefusals(db: Db, kind: Kind, ref: string, hostRef: string, lun: Option<int>, r: Outcome) {
    var o, h := ObjectOf(db.objects, kind, ref), HostOf(db.hosts, hostRef);
    var both := o.Some? && o.value.state.Ready? && h.Some?;
    && (r == NoSuch <==> o.None? || (o.value.state.Ready? && h.None?))
    && (r == BadInput <==> both && !GoodLun(lun))
    && (r == AlreadyDone <==> both && GoodLun(lun) && Connection(o.value.uuid, h.value.uuid, lun.value) in db.conns)
    && (r == Conflict <==> (o.Some? && !o.value.state.Ready?) || (both && GoodLun(lun) && SeatTaken(db.conns, Connection(o.value.uuid, h.value.uuid, lun.value))))
  }

  /** There is nothing to refuse. */
  ghost predicate Connectable(db: Db, kind: Kind, ref: string, hostRef: string, lun: Option<int>, c: Connection) {
    var o, h := ObjectOf(db.objects, kind, ref), HostOf(db.hosts, hostRef);
    && o.Some? && o.value.state.Ready? && h.Some? && GoodLun(lun)
    && c == Connection(o.value.uuid, h.value.uuid, lun.value) && ConnFree(db.conns, c)
  }

  lemma ConnectGoes(db: Db, kind: Kind, ref: string, hostRef: string, lun: Option<int>, c: Connection, r: Outcome)
    requires Connectable(db, kind, ref, hostRef, lun, c) && r !in {NoSuch, Conflict, BadInput, AlreadyDone}
    ensures ConnectAnswer(db, kind, ref, hostRef, lun, r)
  {
  }

  lemma ConnectMisses(db: Db, kind: Kind, ref: string, hostRef: string, lun: Option<int>)
    ensures var o, h := ObjectOf(db.objects, kind, ref), HostOf(db.hosts, hostRef);
      && (o.None? ==> ConnectAnswer(db, kind, ref, hostRef, lun, NoSuch))
      && (o.Some? && !o.value.state.Ready? ==> ConnectAnswer(db, kind, ref, hostRef, lun, Conflict))
      && (o.Some? && o.value.state.Ready? && h.None? ==> ConnectAnswer(db, kind, ref, hostRef, lun, NoSuch))
      && (o.Some? && o.value.state.Ready? && h.Some? && !GoodLun(lun) ==> ConnectAnswer(db, kind, ref, hostRef, lun, BadInput))
  {
  }

  lemma ConnectStops(db: Db, kind: Kind, ref: string, hostRef: string, lun: Option<int>, c: Connection, s: Seat)
    requires DbOk(db) && GoodLun(lun) && c.lun == lun.value
    requires ObjectOf(db.objects, kind, ref).Some? && ObjectOf(db.objects, kind, ref).value.state.Ready? && HostOf(db.hosts, hostRef).Some?
    requires c.obj == ObjectOf(db.objects, kind, ref).value.uuid && c.host == HostOf(db.hosts, hostRef).value.uuid
    requires s == Free <==> ConnFree(db.conns, c)
    requires s == Seat.Same <==> c in db.conns
    ensures s == Seat.Same ==> ConnectAnswer(db, kind, ref, hostRef, lun, AlreadyDone)
    ensures s == Taken ==> ConnectAnswer(db, kind, ref, hostRef, lun, Conflict)
    ensures s == Free ==> Connectable(db, kind, ref, hostRef, lun, c)
  {
  }

  predicate GoodLun(lun: Option<int>) { lun.Some? && 0 <= lun.value <= MAX_LUN }

  ghost predicate SeatTaken(cs: seq<Connection>, c: Connection) { c !in cs && !ConnFree(cs, c) }

  ghost predicate DisconnectAnswer(db: Db, kind: Kind, ref: string, hostRef: string, r: Outcome) {
    var o, h := ObjectOf(db.objects, kind, ref), HostOf(db.hosts, hostRef);
    && (r == NoSuch <==> o.None? || h.None?)
    && (r == AlreadyDone <==> o.Some? && h.Some? && forall c | c in db.conns :: !(c.obj == o.value.uuid && c.host == h.value.uuid))
    && r !in {Conflict, BadInput}
  }

  ghost predicate HostAnswer(db: Db, name: string, iqns: seq<string>, r: Outcome) {
    && (r == BadInput <==> !ValidName(name) || (HostNameFree(db.hosts, name) && !(IqnsOk(iqns) && Unowned(db.hosts, iqns, ""))))
    && (r == AlreadyDone ==> ValidName(name) && exists h :: h in db.hosts && h.name == name && multiset(h.iqns) == multiset(iqns))
    && (r == Conflict ==> ValidName(name) && exists h :: h in db.hosts && h.name == name && multiset(h.iqns) != multiset(iqns))
    && (r in {AlreadyDone, Conflict} <==> ValidName(name) && !HostNameFree(db.hosts, name))
  }

  ghost predicate UnhostAnswer(db: Db, ref: string, r: Outcome) {
    var h := HostOf(db.hosts, ref);
    && (r == NoSuch <==> h.None?)
    && (r == Conflict <==> h.Some? && exists c :: c in db.conns && c.host == h.value.uuid)
  }

  ghost predicate RenameAnswer(db: Db, kind: Kind, ref: string, name: string, r: Outcome) {
    var o := ObjectOf(db.objects, kind, ref);
    && (r == BadInput <==> !ValidName(name))
    && (r == NoSuch <==> ValidName(name) && o.None?)
    && (r == AlreadyDone <==> ValidName(name) && o.Some? && o.value.name == name)
    && (r == Conflict <==> ValidName(name) && o.Some? && o.value.name != name && !NameFree(db.objects, kind, name))
  }

  ghost predicate ResizeAnswer(db: Db, kind: Kind, ref: string, size: int, r: Outcome) {
    var o := ObjectOf(db.objects, kind, ref);
    && (r == NoSuch <==> o.None?)
    && (r == AlreadyDone <==> o.Some? && size == o.value.capacity)
    && (r == BadInput <==> o.Some? && size != o.value.capacity && (size < o.value.capacity || !GoodSize(size)))
    && r != Conflict
  }

  ghost predicate DeleteAnswer(db: Db, kind: Kind, ref: string, r: Outcome) {
    var o := ObjectOf(db.objects, kind, ref);
    && (r == NoSuch <==> o.None?)
    && (r == Conflict <==> o.Some? && o.value.uuid in Connected(db.conns))
  }

  // ----- what an operation that was stored did -----

  predicate IsHost(h: Host, ref: string) { h.name == ref || h.uuid == ref }

  ghost predicate Linked(db: Db, next: Db, kind: Kind, ref: string, hostRef: string, lun: Option<int>) {
    exists o, h :: && Resolves(db.objects, kind, ref, Some(o)) && h in db.hosts && IsHost(h, hostRef)
                   && lun.Some? && next == AddConn(db, Connection(o.uuid, h.uuid, lun.value))
  }

  ghost predicate Unlinked(db: Db, next: Db, kind: Kind, ref: string, hostRef: string) {
    exists o, h :: && Resolves(db.objects, kind, ref, Some(o)) && h in db.hosts && IsHost(h, hostRef)
                   && next == DropConn(db, o.uuid, h.uuid)
  }

  ghost predicate HostDropped(db: Db, next: Db, ref: string) {
    exists h :: h in db.hosts && IsHost(h, ref) && next == DropHost(db, h.uuid)
  }

  ghost predicate BoundTo(db: Db, next: Db, ref: string, replace: Option<seq<string>>, add: seq<string>, remove: seq<string>) {
    exists h, iqns :: && h in db.hosts && IsHost(h, ref) && next == SetIqns(db, h.uuid, iqns)
                      && Requested(h.iqns, replace, add, remove, iqns)
  }

  ghost predicate Grown(db: Db, next: Db, kind: Kind, ref: string, size: int) {
    exists o :: && Resolves(db.objects, kind, ref, Some(o)) && size > o.capacity
                && next == db.(objects := Rewrite(db.objects, o.uuid, o.(capacity := size)))
  }

  ghost predicate Dropped(db: Db, next: Db, kind: Kind, ref: string) {
    exists o :: Resolves(db.objects, kind, ref, Some(o)) && next == DropObject(db, o.uuid)
  }

  ghost predicate Renamed(db: Db, next: Db, kind: Kind, ref: string, name: string) {
    exists o :: && Resolves(db.objects, kind, ref, Some(o))
                && next == db.(objects := Rewrite(db.objects, o.uuid, o.(name := name)))
  }

  ghost predicate CopyOf(o: Object, os: seq<Object>, kind: Kind, ref: string) {
    exists src :: && Resolves(os, kind, ref, Some(src))
                  && o.source == src.uuid && o.blockSize == src.blockSize && o.capacity >= src.capacity
  }

  ghost predicate Requested(have: seq<string>, replace: Option<seq<string>>, add: seq<string>, remove: seq<string>, iqns: seq<string>) {
    forall q :: q in iqns <==> (q in (if replace.Some? then replace.value else have) || q in add) && q !in remove
  }

  /** Whether an object that presents nothing is held back makes no difference. */
  lemma OutIrrelevant(t: Tree, db: Db, out: set<string>, more: set<string>, u: string, s: Settings)
    requires u !in Uuids(db.objects) && out - {u} == more - {u} && InSync(t, db, out, s)
    ensures InSync(t, db, more, s)
  {
    ShownIgnores(db, out, more, u);
    SameShown(t, db, out, more, s);
  }

  lemma GoneIrrelevant(t: Tree, db: Db, withheld: map<string, string>, left: map<string, string>, prClearing: string, u: string, s: Settings)
    requires u !in Uuids(db.objects) && left == withheld - {u}
    ensures InSync(t, db, withheld.Keys + {prClearing}, s) ==> InSync(t, db, left.Keys + {prClearing}, s)
  {
    if InSync(t, db, withheld.Keys + {prClearing}, s) {
      OutIrrelevant(t, db, withheld.Keys + {prClearing}, left.Keys + {prClearing}, u, s);
    }
  }

  lemma ForgetCovered(db: Db, prClearing: string, withheld: map<string, string>, left: map<string, string>, u: string)
    requires u !in Uuids(db.objects) && AtRest(db, prClearing, withheld, "", withheld) && left == withheld - {u}
    ensures CoveredBy(db, prClearing, left, "", left) && AtRest(db, prClearing, left, "", left)
  {
  }

  // ----- changes the kernel cannot see -----

  lemma NewObjectUnseen(db: Db, o: Object, log: seq<Change>, peak: nat, out: set<string>)
    requires Reachable(db, log, peak) && Allowed(db, NewObject(o), Ever(log))
    ensures SamePresented(db, Changed(db, NewObject(o)), out)
  {
    ReachableOk(db, log, peak);
    CreateUnseen(db, o, out);
  }

  lemma DeletedUnseen(db: Db, u: string, log: seq<Change>, peak: nat, out: set<string>)
    requires Reachable(db, log, peak) && Allowed(db, Deleted(u), Ever(log))
    ensures SamePresented(db, Changed(db, Deleted(u)), out) && u !in Uuids(Changed(db, Deleted(u)).objects)
  {
    ReachableOk(db, log, peak);
    DeleteUnseen(db, u, out);
    DropObjectOk(db, u);
  }

  lemma EditUnseen(db: Db, was: Object, now: Object, log: seq<Change>, peak: nat, out: set<string>)
    requires Reachable(db, log, peak) && Allowed(db, Rewritten(was, now), Ever(log)) && now.state == was.state
    ensures SamePresented(db, Changed(db, Rewritten(was, now)), out)
  {
    ReachableOk(db, log, peak);
    EditOk(db.objects, was, now);
    RewriteUnseen(db, was, now, out);
  }

  // ----- clearing a reservation -----

  /** What could be established about the fence (appliance/clearpr.go:393-403). */
  datatype Fence = Unknown | Down | Up

  /** What one read of the pr/ files showed. */
  datatype PrRead = PrRead(known: bool, holder: Option<string>, regs: set<string>, truncated: bool)

  /** How the reading of an object's pr/ files will go: it fails, its holder cannot be made out, or
      its registrations are cut short. */
  datatype Fate = Fate(fails: bool, garbled: bool, cut: bool, part: set<string>)

  /** The holder can be read. */
  predicate Legible(f: Fate) { !f.fails && !f.garbled }

  /** PRState: what a reading shows of what is there. */
  function ReadOf(f: Fate, there: bool, now: Pr): Option<PrRead> {
    if f.fails || !there then None
    else Some(PrRead(!f.garbled, if f.garbled then None else now.holder, if f.cut then f.part * now.regs else now.regs, f.cut))
  }

  datatype Code = Cleared | NotFound | Unconfirmed | Unsupported | StillDegraded
                | FenceDropped | ClearUnverified | FenceUnknown | ReconcileFailed

  /** Refusals of a clear, and exactly when. */
  ghost predicate RefusedFor(target: Option<Object>, confirm: string, code: Code) {
    && (code == NotFound <==> target.None?)
    && (code == Unconfirmed <==> target.Some? && confirm != target.value.name)
    && (code == Unsupported <==> target.Some? && confirm == target.value.name && !target.value.state.Ready?)
  }

  predicate Declined(c: Code) { c in {NotFound, Unconfirmed, Unsupported, StillDegraded} }

  function PrAt(pr: map<Key, Pr>, k: Key): Pr { if k in pr then pr[k] else Pr(None, {}) }

  /** Nobody holds a reservation on the object, under whatever HBA. */
  ghost predicate Unheld(pr: map<Key, Pr>, u: string) {
    forall k | k in pr && k.name == BackstoreName(u) :: pr[k].holder == None
  }

  ghost predicate Unregistered(pr: map<Key, Pr>, u: string) {
    forall k | k in pr && k.name == BackstoreName(u) :: pr[k].regs == {}
  }

  /** An answer agrees with the kernel.  Success means no holder and no registrations, and the
      fence is called dropped only when nobody holds it.  It is called unverified only when
      somebody holds it or it could not be read, and unknown only when it could not be read or
      the reconcile failed. */
  ghost predicate Agrees(code: Code, f: Fate, failed: bool, pr: map<Key, Pr>, u: string) {
    AgreesIn(code, f, failed, pr, u) == true // carried whole, not clause by clause
  }

  ghost predicate AgreesIn(code: Code, f: Fate, failed: bool, pr: map<Key, Pr>, u: string) {
    && (code in {Cleared, FenceDropped} ==> Unheld(pr, u))
    && (code == Cleared ==> Unregistered(pr, u))
    && (code == ClearUnverified ==> !Legible(f) || !Unheld(pr, u))
    && (code == FenceUnknown ==> !Legible(f) || failed)
    && (code == ReconcileFailed ==> failed)
  }

  /** The verdict on a rebuilt object that could be read. */
  ghost function Verified(f: Fate, shown: bool, pr: map<Key, Pr>, u: string): Code {
    if !Unheld(pr, u) then ClearUnverified
    else if Unregistered(pr, u) && !(shown && f.cut) then Cleared
    else FenceDropped
  }

  /** What a device that is there was found to be. */
  ghost predicate Found(v: Fence, read: PrRead, f: Fate, there: bool, now: Pr) {
    && (v == Unknown ==> !Legible(f) || !there)
    && (v != Unknown ==> Legible(f) && ReadOf(f, true, now) == Some(read) && (v == Up <==> now.holder.Some?))
  }

  /** verifyCleared's verdict, and recoverFromFailedPrune's. */
  function ClearCode(v: Fence, have: bool, read: PrRead): Code {
    if v != Down then ClearUnverified
    else if !have then Cleared
    else if read.truncated || read.regs != {} then FenceDropped
    else Cleared
  }

  function RecoverCode(v: Fence): Code {
    match v case Down => FenceDropped case Up => ClearUnverified case Unknown => FenceUnknown
  }

  lemma DroppedAgrees(f: Fate, failed: bool, pr: map<Key, Pr>, u: string)
    requires Unheld(pr, u)
    ensures Agrees(FenceDropped, f, failed, pr, u)
  {
  }

  lemma VerdictsAgree(v: Fence, have: bool, read: PrRead, f: Fate, t: Tree, db: Db, pr: map<Key, Pr>, u: string)
    requires have ==> ReadingTells(t, db, u, pr) && Found(v, read, f, KeyOf(db.exports, u) in t.objs, PrAt(pr, KeyOf(db.exports, u)))
    requires !have ==> v == Down && Unheld(pr, u) && Unregistered(pr, u)
    ensures Agrees(ClearCode(v, have, read), f, false, pr, u) && Agrees(RecoverCode(v), f, false, pr, u)
    ensures Legible(f) ==> ClearCode(v, have, read) == Verified(f, have, pr, u)
    ensures Legible(f) ==> RecoverCode(v) == if Unheld(pr, u) then FenceDropped else ClearUnverified
  {
  }

  /** UUIDs are unique. */
  lemma OnlyOne(db: Db, log: seq<Change>, peak: nat, o: Object)
    requires Reachable(db, log, peak) && o in db.objects
    ensures forall x | x in db.objects && x.uuid == o.uuid :: x == o
    ensures forall x | x in db.objects && x.wwn == o.wwn :: x == o
    ensures ValidUuid(o.uuid) && o.uuid in Ever(log)
  {
    ReachableOk(db, log, peak);
    forall x | x in db.objects && x.uuid == o.uuid ensures x == o {
      KeyUnique(db.objects, ObjectKey, x, o);
    }
    forall x | x in db.objects && x.wwn == o.wwn ensures x == o {
      KeyUnique(db.objects, WwnKey, x, o);
    }
  }

  /** The clear in flight covers its own object, and what is withheld covers itself. */
  lemma ClearCovered(db: Db, log: seq<Change>, peak: nat, o: Object, withheld: map<string, string>)
    requires Reachable(db, log, peak) && o in db.objects
    ensures CoveredBy(db, o.uuid, withheld, o.name, withheld) && CoveredBy(db, "", withheld, o.name, withheld)
  {
    OnlyOne(db, log, peak, o);
    NoEmptyUuid(db, log, peak);
  }

  lemma LiftCovered(db: Db, log: seq<Change>, peak: nat, o: Object, withheld: map<string, string>)
    requires Reachable(db, log, peak) && o in db.objects
    ensures CoveredBy(db, o.uuid, withheld - {o.uuid}, o.name, withheld - {o.uuid})
  {
    OnlyOne(db, log, peak, o);
  }

  lemma HeldSame(w: map<string, string>, o: Object)
    ensures forall objs :: HoldsKept(w, w, o, false, objs)
  {
  }

  lemma HeldMore(w0: map<string, string>, w1: map<string, string>, o: Object, objs: map<Key, Obj>)
    requires w1 == w0[o.uuid := o.name]
    ensures HoldsKept(w0, w1, o, false, objs)
  {
  }

  lemma HeldKeys(w: map<string, string>, u: string, name: string)
    ensures w[u := name].Keys + {u} == w.Keys + {u}
  {
  }

  /** The hold a clear makes is of its own object. */
  lemma HoldReady(db: Db, log: seq<Change>, peak: nat, o: Object)
    requires Reachable(db, log, peak) && o in db.objects
    ensures ValidUuid(o.uuid) && o.uuid in Ever(log) && forall x | x in db.objects && x.uuid == o.uuid :: o.name == x.name
  {
    OnlyOne(db, log, peak, o);
  }

  lemma LiftHeld(w0: map<string, string>, w1: map<string, string>, o: Object, objs: map<Key, Obj>)
    requires w1 == w0 - {o.uuid} && Unreplayed(objs, o.uuid)
    ensures HoldsKept(w0, w1, o, true, objs)
  {
  }

  /** With the tree in sync, an object's only backstore is the desired one. */
  lemma SyncedKey(t: Tree, db: Db, out: set<string>, s: Settings, u: string, k: Key)
    requires DbOk(db) && InSync(t, db, out, s) && u in Shown(db, out) && ValidUuid(u) && k in t.objs && k.name == BackstoreName(u)
    ensures u in db.exports && k == KeyOf(db.exports, u)
  {
    var order :| Lists(order, Shown(db, out)) && Presentable(db, order) && Shown(db, out) <= db.exports.Keys
                 && Realised(t, Desired(db, order, Shown(db, out), s));
    ShownPresentable(db, order, out);
    DesiredKeys(db, order, s);
    var v :| v in order && k == KeyOf(db.exports, v);
    NameInjective(v, u);
  }

  lemma SyncedKeyThere(t: Tree, db: Db, out: set<string>, s: Settings, u: string)
    requires DbOk(db) && InSync(t, db, out, s) && u in Shown(db, out)
    ensures u in db.exports && KeyOf(db.exports, u) in t.objs
  {
    var order :| Lists(order, Shown(db, out)) && Presentable(db, order) && Shown(db, out) <= db.exports.Keys
                 && Realised(t, Desired(db, order, Shown(db, out), s));
    DesiredKeys(db, order, s);
    assert u in order;
  }

  /** What a reading of the desired backstore says about every backstore of the object. */
  lemma ReadingCovers(t: Tree, db: Db, out: set<string>, s: Settings, u: string, pr: map<Key, Pr>, log: seq<Change>, peak: nat)
    requires Reachable(db, log, peak) && InSync(t, db, out, s) && ValidUuid(u) && pr.Keys <= t.objs.Keys
    ensures u !in Shown(db, out) ==> NotBuilt(t.objs, u) && Unheld(pr, u) && Unregistered(pr, u)
    ensures u in Shown(db, out) ==> ReadingTells(t, db, u, pr)
  {
    ReachableOk(db, log, peak);
    if u !in Shown(db, out) {
      LeftOutAbsent(t, db, out, s, u);
    } else {
      OneBackstore(t, db, out, s, u, pr);
    }
  }

  lemma OneBackstore(t: Tree, db: Db, out: set<string>, s: Settings, u: string, pr: map<Key, Pr>)
    requires DbOk(db) && InSync(t, db, out, s) && ValidUuid(u) && pr.Keys <= t.objs.Keys && u in Shown(db, out)
    ensures ReadingTells(t, db, u, pr)
  {
    SyncedKeyThere(t, db, out, s, u);
    forall k | k in pr && k.name == BackstoreName(u) ensures k == KeyOf(db.exports, u) {
      SyncedKey(t, db, out, s, u, k);
    }
  }

  /** The object has one backstore, and what is there of reservations is there. */
  ghost predicate ReadingTells(t: Tree, db: Db, u: string, pr: map<Key, Pr>) {
    && u in db.exports && KeyOf(db.exports, u) in t.objs
    && (PrAt(pr, KeyOf(db.exports, u)).holder == None <==> Unheld(pr, u))
    && (PrAt(pr, KeyOf(db.exports, u)).regs == {} <==> Unregistered(pr, u))
  }

  lemma PrunedAway(t: Tree, db: Db, withheld: map<string, string>, s: Settings, o: Object, log: seq<Change>, peak: nat)
    requires Reachable(db, log, peak) && o in db.objects && InSync(t, db, withheld.Keys + {o.uuid}, s)
    ensures NotBuilt(t.objs, o.uuid)
  {
    OnlyOne(db, log, peak, o);
    ReachableOk(db, log, peak);
    LeftOutAbsent(t, db, withheld.Keys + {o.uuid}, s, o.uuid);
  }

  lemma NotBuiltUnheld(pr: map<Key, Pr>, objs: map<Key, Obj>, u: string)
    requires pr.Keys <= objs.Keys && NotBuilt(objs, u)
    ensures Unheld(pr, u)
  {
  }

  lemma NotBuiltNotLive(objs: map<Key, Obj>, db: Db, log: seq<Change>, peak: nat, o: Object)
    requires Reachable(db, log, peak) && o in db.objects && NotBuilt(objs, o.uuid)
    ensures o.wwn !in LiveWwns(objs, db.objects)
  {
    OnlyOne(db, log, peak, o);
  }

  method SearchName(bs: seq<Backstore>, ghost db: Db, ghost order: seq<string>, ghost s: Settings, u: string) returns (b: Option<Backstore>)
    requires Presentable(db, order) && bs == BackstoresFor(db, order, s) && ValidUuid(u) && forall v | v in order :: ValidUuid(v)
    ensures b.Some? <==> u in order
    ensures b.Some? ==> u in db.exports && b.value.key == KeyOf(db.exports, u)
  {
    BackstoresAre(db, order, s);
    for i := 0 to |bs|
      invariant forall j | 0 <= j < i :: order[j] != u
    {
      assert order[i] in order;
      if bs[i].key.name == BackstoreName(u) {
        NameInjective(order[i], u);
        return Some(bs[i]);
      }
    }
    return None;
  }

  class Coordinator {
    const settings: Settings
    const fs: Configfs
    var st: Db
    /** what the database file holds */
    var disk: Db
    /** every version of the file that a crash may leave behind */
    ghost var versions: set<Db>
    var applied: Option<Config>
    var lastErr: Option<Err>
    var prClearing: string
    var withheld: map<string, string>
    /** the two fields a concurrent /health read sees */
    var clearing: string
    var withheldNames: map<string, string>
    /** the kernel's reservations, and the saved APTPL files by WWN */
    var pr: map<Key, Pr>
    var saved: map<string, seq<string>>
    /** what applied is worth */
    ghost var known: Known
    /** the changes that made st, and the most objects ever exported at once */
    ghost var log: seq<Change>
    ghost var peak: nat

    /** What holds at every step under the coordinator's lock. */
    ghost predicate Base()
      reads this, fs
    {
      // compared with true so that a proof carries it whole instead of clause by clause
      Sound(fs.tree, st, log, peak, settings, applied, known, prClearing, withheld, clearing, withheldNames) == true
    }

    /** What holds between two operations. */
    ghost predicate Inv()
      reads this, fs
    {
      && fs.Inv() && Base() && AtRest(st, prClearing, withheld, clearing, withheldNames)
      && pr.Keys <= fs.tree.objs.Keys
      && (lastErr.None? ==> known.lost || InSync(fs.tree, st, withheld.Keys + {prClearing}, settings))
      && OnDisk(disk, versions, st)
    }

    /** A start on a loaded database, over a tree an earlier run on that database left behind
        or an empty one.  Nothing is known of the tree until the first reconcile. */
    constructor (s: Settings, kernel: Configfs, db: Db, held: map<Key, Pr>, records: map<string, seq<string>>, ghost changes: seq<Change>, ghost n: nat)
      requires kernel.Inv() && SettingsOk(s) && Reachable(db, changes, n)
      requires NoForeign(kernel.tree.nodes, db.exports, s) && WeldSafe(kernel.tree.objs, s.writeBack)
      requires held.Keys <= kernel.tree.objs.Keys
      ensures pr == held && versions == {db}
      ensures Inv() && settings == s && fs == kernel && st == db && disk == db && saved == records && log == changes && peak == n
    {
      settings, fs, st, disk := s, kernel, db, db;
      applied, lastErr := None, Some(Stale);
      prClearing, withheld, clearing, withheldNames := "", map[], "", map[];
      versions := {db};
      pr, saved, known, log, peak := held, records, Known(Config([], []), {}, false), changes, n;
      NoEmptyUuid(db, changes, n);
    }

    /** The initiators go on meanwhile: reservations on live objects, and the saved records of
        live objects, change in any way. */
    method Traffic()
      requires Base()
      modifies this`pr, this`saved
      ensures Base()
      ensures pr.Keys <= fs.tree.objs.Keys
      ensures forall w | w !in LiveWwns(fs.tree.objs, st.objects) ::
                (w in saved <==> w in old(saved)) && SavedFor(saved, w) == SavedFor(old(saved), w)
    {
      var any: map<Key, Pr>, touched: map<string, seq<string>> := *, *;
      pr := map k | k in any && k in fs.tree.objs :: any[k];
      var live := LiveWwns(fs.tree.objs, st.objects);
      saved := Touched(saved, touched, live);
    }

    /** reconcile (appliance/translate.go:275-330). */
    method Reconcile() returns (err: Err)
      requires fs.Inv() && Base()
      modifies this`applied, this`lastErr, this`known, fs
      ensures fs.Inv() && Base() && !known.lost && fs.repoints == old(fs.repoints)
      ensures lastErr == if err == Ok then None else Some(err)
      ensures err == Ok ==> InSync(fs.tree, st, withheld.Keys + {prClearing}, settings)
      // the view describes what was asked for just now, and what it misses is what could not be read
      ensures err == Ok ==> applied.Some? && Current(fs.tree, st, withheld.Keys + {prClearing}, settings, old(known).missed, known, ReadWell(fs.misreads, old(fs.looks), fs.looks))
      ensures Orderly(old(fs.tree), fs.tree, st.objects, saved)
    {
      var out := withheld.Keys + {prClearing};
      var cfg, order := BuildAsked(st, out, settings, log, peak);
      var view;
      ghost var now;
      err, view, now := ReconcileTo(fs, cfg, applied, saved, Aim(st, log, peak, settings, order, out, withheld), known);
      Publish(err, view, now);
    }

    /** setReconcileOK and setReconcileErr (appliance/appliance.go:1412-1433), with the view kept or discarded. */
    method Publish(err: Err, view: Option<Config>, ghost now: Known)
      requires SettingsOk(settings) && Reachable(st, log, peak)
      requires Kept(fs.tree, st.exports, withheld, settings) && Believed(fs.tree, view, now, log)
      requires Marked(withheld, prClearing, log) && CoveredBy(st, prClearing, withheld, clearing, withheldNames)
      modifies this`applied, this`lastErr, this`known
      ensures Base() && known == now && applied == view && lastErr == if err == Ok then None else Some(err)
    {
      applied, lastErr, known := view, if err == Ok then None else Some(err), now;
    }

    /** The kernel tree is lost from under the running daemon. */
    method LoseTree()
      requires Inv()
      modifies fs, this`known, this`pr
      ensures Inv() && fs.tree == EMPTY_TREE && st == old(st)
    {
      LostSound(fs.tree, st, log, peak, settings, applied, known, prClearing, withheld, clearing, withheldNames);
      fs.Unload();
      known, pr := known.(lost := true), map[];
    }

    /** The operation is over; the initiators go on. */
    method Rest()
      requires fs.Inv() && Base() && AtRest(st, prClearing, withheld, clearing, withheldNames)
      requires lastErr.None? ==> known.lost || InSync(fs.tree, st, withheld.Keys + {prClearing}, settings)
      requires OnDisk(disk, versions, st)
      modifies this`pr, this`saved
      ensures Inv()
    {
      Traffic();
    }

    /** Reconcile as the last step of an operation. */
    method Converge() returns (err: Err)
      requires fs.Inv() && Base() && AtRest(st, prClearing, withheld, clearing, withheldNames) && OnDisk(disk, versions, st)
      modifies this`applied, this`lastErr, this`known, this`pr, this`saved, fs
      ensures Inv() && fs.repoints == old(fs.repoints) && (err == Ok <==> lastErr == None)
    {
      err := Refresh();
      Rest();
    }

    /** Reconcile, where only the tree is of interest. */
    method Refresh() returns (err: Err)
      requires fs.Inv() && Base()
      modifies this`applied, this`lastErr, this`known, fs
      ensures fs.Inv() && Base() && fs.repoints == old(fs.repoints)
      ensures lastErr == if err == Ok then None else Some(err)
      ensures err == Ok ==> InSync(fs.tree, st, withheld.Keys + {prClearing}, settings)
    {
      err := Reconcile();
    }

    /** healIfDegraded (appliance/appliance.go:1001-1015). */
    method HealIfDegraded() returns (err: Err)
      requires Inv()
      modifies this`applied, this`lastErr, this`known, this`pr, this`saved, fs
      ensures Inv() && fs.repoints == old(fs.repoints)
      ensures err == Ok <==> lastErr == None
      ensures old(lastErr).None? ==> err == Ok
    {
      if lastErr.None? {
        return Ok;
      }
      err := Converge();
    }

    /** persist (appliance/appliance.go:870-946): the file is replaced by a rename, or not at all;
        until the directory is fsynced the older versions may come back. */
    method Persist() returns (p: Persisted)
      requires Base() && Recoverable(disk, versions)
      modifies this`disk, this`versions
      ensures Base() && Recoverable(disk, versions)
      ensures disk == if p == NotWritten then old(disk) else st
      ensures p != NotWritten ==> OnDisk(disk, versions, st)
      ensures p == Durable ==> versions == {st}
    {
      RecoverableStep(disk, versions, st, log, peak);
      var written: bool, synced: bool := *, *;
      if !written {
        return NotWritten;
      }
      disk, versions := st, if synced then {st} else versions + {st};
      p := if synced then Durable else NotDurable;
    }

    /** Take on a database made by one more change. */
    method SetDb(next: Db, ghost ch: Change, ghost before: seq<Change>, ghost n: nat)
      requires SettingsOk(settings) && Reachable(next, before + [ch], n)
      requires Kept(fs.tree, next.exports, withheld, settings) && Believed(fs.tree, applied, known, before + [ch])
      requires Marked(withheld, prClearing, before + [ch]) && CoveredBy(next, prClearing, withheld, clearing, withheldNames)
      modifies this`st, this`log, this`peak
      ensures Base() && st == next && log == before + [ch] && peak == n
    {
      st, log, peak := next, before + [ch], n;
    }

    /** The mutation closure of a commit: allowed by the operation's own checks. */
    method Mutate(ch: Change)
      requires fs.Inv() && Base() && AtRest(st, prClearing, withheld, clearing, withheldNames) && Allowed(st, ch, Ever(log))
      requires fs.tree == EMPTY_TREE || InSync(fs.tree, st, withheld.Keys + {prClearing}, settings) ||
               Changed(st, ch).exports == st.exports
      modifies this`st, this`log, this`peak
      ensures fs.Inv() && Base() && AtRest(st, prClearing, withheld, clearing, withheldNames)
      ensures st == Changed(old(st), ch) && log == old(log) + [ch]
    {
      ChangeReachable(st, ch, log, peak);
      if Changed(st, ch).exports != st.exports {
        ChangeNoForeign(fs.tree, st, ch, log, peak, withheld.Keys + {prClearing}, settings);
      }
      ChangeMarked(withheld, prClearing, log, ch);
      BornGrows(known.asked.backstores, log, ch);
      ChangeCovered(st, ch, log, peak, prClearing, withheld);
      SetDb(Changed(st, ch), ch, log, Max(peak, |Changed(st, ch).exports|));
    }

    /** restoreState: memory goes back to the snapshot. */
    method Restore(backup: Db, ghost before: seq<Change>, ghost n: nat, ghost db: Db)
      requires fs.Inv() && Base() && AtRest(backup, prClearing, withheld, clearing, withheldNames)
      requires Reachable(db, before, n) && backup == SnapshotOf(db)
      requires NoForeign(fs.tree.nodes, backup.exports, settings) && Marked(withheld, prClearing, before)
      requires BlocksBorn(known.asked.backstores, Born(before))
      modifies this`st, this`log, this`peak
      ensures fs.Inv() && Base() && AtRest(st, prClearing, withheld, clearing, withheldNames) && st == backup
    {
      RestoredReachable(backup, before, n, db);
      RestCovered(backup, prClearing, withheld, clearing, withheldNames);
      ChangeMarked(withheld, prClearing, before, RolledBack);
      BornGrows(known.asked.backstores, before, RolledBack);
      SetDb(backup, RolledBack, before, Max(n, |backup.exports|));
    }

    /** Restore as the last step of an operation that changed nothing in the kernel. */
    method Undo(backup: Db, ghost before: seq<Change>, ghost n: nat, ghost db: Db)
      requires fs.Inv() && Base() && CanRestore(fs.tree, disk, versions, backup, db, before, n, settings, lastErr, known, prClearing, withheld, clearing, withheldNames)
      modifies this`st, this`log, this`peak, this`pr, this`saved
      ensures Inv() && st == backup
    {
      Restore(backup, before, n, db);
      Rest();
    }

    /** persist, then reconcile what is now on disk whether or not it is proven durable; only a
        write that did not happen is undone (appliance/appliance.go:1077-1092). */
    method Store(backup: Db, ghost before: seq<Change>, ghost n: nat, ghost db: Db) returns (r: Outcome)
      requires fs.Inv() && Base() && AtRest(st, prClearing, withheld, clearing, withheldNames)
      requires CanRestore(fs.tree, disk, versions, backup, db, before, n, settings, lastErr, known, prClearing, withheld, clearing, withheldNames)
      modifies this`applied, this`lastErr, this`known, this`pr, this`saved, this`st, this`disk, this`versions, this`log, this`peak, fs
      ensures Inv() && fs.repoints == old(fs.repoints)
      ensures r in {Done, NotStored, StoredNotDurable, NotReconciled}
      ensures if r == NotStored then disk == old(disk) && st == backup else disk == st == old(st)
    {
      var p := Persist();
      if p == NotWritten {
        Undo(backup, before, n, db);
        return NotStored;
      }
      var err := Converge();
      r := if p == NotDurable then StoredNotDurable else if err == Ok then Done else NotReconciled;
    }

    /** commit (appliance/appliance.go:1057-1110): heal, snapshot, mutate, validate, persist,
        reconcile.  Either memory and disk are as they were, but for what the snapshot drops, or
        both hold the change; and no LUN is re-pointed in place. */
    method Commit(ch: Change) returns (r: Outcome)
      requires Inv() && Allowed(st, ch, Ever(log))
      modifies this`applied, this`lastErr, this`known, this`pr, this`saved, this`st, this`disk, this`versions, this`log, this`peak, fs
      ensures Inv() && fs.repoints == old(fs.repoints)
      ensures r == Degraded ==> old(lastErr).Some? && lastErr.Some?
      ensures r in {Done, Degraded, Untranslatable, NotStored, StoredNotDurable, NotReconciled}
      ensures r == Degraded ==> st == old(st) && disk == old(disk)
      ensures Undone(r) ==> st == SnapshotOf(old(st)) && disk == old(disk)
      ensures r in {Done, StoredNotDurable, NotReconciled} ==> disk == st == Changed(old(st), ch)
    {
      var err := HealIfDegraded();
      r := CommitAfterHeal(ch);
    }

    method CommitAfterHeal(ch: Change) returns (r: Outcome)
      requires Inv() && Allowed(st, ch, Ever(log))
      modifies this`applied, this`lastErr, this`known, this`pr, this`saved, this`st, this`disk, this`versions, this`log, this`peak, fs
      ensures Inv() && fs.repoints == old(fs.repoints)
      ensures r in {Done, Degraded, Untranslatable, NotStored, StoredNotDurable, NotReconciled}
      ensures r == Degraded <==> old(lastErr).Some?
      ensures r == Degraded ==> st == old(st) && disk == old(disk) && lastErr == old(lastErr)
      ensures Undone(r) ==> st == SnapshotOf(old(st)) && disk == old(disk)
      ensures r in {Done, StoredNotDurable, NotReconciled} ==> disk == st == Changed(old(st), ch)
    {
      if lastErr.None? {
        r := CommitHealed(ch);
      } else {
        r := Degraded;
      }
    }

    /** The validation step of a commit. */
    method Translatable() returns (ok: bool)
      requires Base()
    {
      var cfg, order := BuildAsked(st, withheld.Keys + {prClearing}, settings, log, peak);
      ok := Validate(cfg);
    }

    /** The rest of commit, on a tree that is in sync as far as anyone knows. */
    method CommitHealed(ch: Change) returns (r: Outcome)
      requires Inv() && lastErr.None? && Allowed(st, ch, Ever(log))
      modifies this`applied, this`lastErr, this`known, this`pr, this`saved, this`st, this`disk, this`versions, this`log, this`peak, fs
      ensures Inv() && fs.repoints == old(fs.repoints)
      ensures r in {Done, Untranslatable, NotStored, StoredNotDurable, NotReconciled}
      ensures Undone(r) ==> st == SnapshotOf(old(st)) && disk == old(disk)
      ensures !Undone(r) ==> disk == st == Changed(old(st), ch)
    {
      ghost var before, n, db := log, peak, st;
      var backup := SnapshotOf(st);
      SnapshotRestorable(fs.tree, disk, versions, st, log, peak, settings, lastErr, known, prClearing, withheld, clearing, withheldNames);
      Mutate(ch);
      r := Conclude(backup, before, n, db);
    }

    /** Validate what the change makes of the config; then store it, or take it back. */
    method Conclude(backup: Db, ghost before: seq<Change>, ghost n: nat, ghost db: Db) returns (r: Outcome)
      requires fs.Inv() && Base() && AtRest(st, prClearing, withheld, clearing, withheldNames)
      requires CanRestore(fs.tree, disk, versions, backup, db, before, n, settings, lastErr, known, prClearing, withheld, clearing, withheldNames)
      modifies this`applied, this`lastErr, this`known, this`pr, this`saved, this`st, this`disk, this`versions, this`log, this`peak, fs
      ensures Inv() && fs.repoints == old(fs.repoints)
      ensures r in {Done, Untranslatable, NotStored, StoredNotDurable, NotReconciled}
      ensures if Undone(r) then disk == old(disk) && st == backup else disk == st == old(st)
    {
      var ok := Translatable();
      if ok {
        r := Store(backup, before, n, db);
      } else {
        Undo(backup, before, n, db);
        r := Untranslatable;
      }
    }

    /** persistOnly (appliance/appliance.go:1039-1055): for a change the kernel cannot see. */
    method PersistOnly(ch: Change) returns (r: Outcome)
      requires Inv() && Allowed(st, ch, Ever(log)) && SamePresented(st, Changed(st, ch), withheld.Keys + {prClearing})
      modifies this`pr, this`saved, this`st, this`disk, this`versions, this`log, this`peak
      ensures Inv() && r in {Done, NotStored, StoredNotDurable}
      ensures if r == NotStored then st == SnapshotOf(old(st)) && disk == old(disk) else disk == st == Changed(old(st), ch)
    {
      ghost var before, n, db := log, peak, st;
      var backup := SnapshotOf(st);
      SnapshotRestorable(fs.tree, disk, versions, st, log, peak, settings, lastErr, known, prClearing, withheld, clearing, withheldNames);
      MutateUnseen(ch);
      r := Save(backup, before, n, db);
    }

    /** A change the kernel cannot see leaves the tree in sync. */
    method MutateUnseen(ch: Change)
      requires Inv() && Allowed(st, ch, Ever(log)) && SamePresented(st, Changed(st, ch), withheld.Keys + {prClearing})
      modifies this`st, this`log, this`peak
      ensures fs.Inv() && Base() && AtRest(st, prClearing, withheld, clearing, withheldNames) && st == Changed(old(st), ch)
      ensures lastErr.None? ==> known.lost || InSync(fs.tree, st, withheld.Keys + {prClearing}, settings)
    {
      ChangeUnseen(st, ch, fs.tree, withheld.Keys + {prClearing}, settings, log, peak);
      Mutate(ch);
    }

    /** persist with no reconcile to follow. */
    method Save(backup: Db, ghost before: seq<Change>, ghost n: nat, ghost db: Db) returns (r: Outcome)
      requires fs.Inv() && Base() && AtRest(st, prClearing, withheld, clearing, withheldNames)
      requires lastErr.None? ==> known.lost || InSync(fs.tree, st, withheld.Keys + {prClearing}, settings)
      requires CanRestore(fs.tree, disk, versions, backup, db, before, n, settings, lastErr, known, prClearing, withheld, clearing, withheldNames)
      modifies this`pr, this`saved, this`st, this`disk, this`versions, this`log, this`peak
      ensures Inv() && r in {Done, NotStored, StoredNotDurable}
      ensures if r == NotStored then disk == old(disk) && st == backup else disk == st == old(st)
    {
      var p := Persist();
      if p == NotWritten {
        Undo(backup, before, n, db);
        return NotStored;
      }
      Rest();
      r := if p == NotDurable then StoredNotDurable else Done;
    }

    // ----- connections and hosts -----

    /** Connect (appliance/hosts.go:295-359). */
    method Connect(kind: Kind, ref: string, hostRef: string, lun: Option<int>) returns (r: Outcome)
      requires Inv()
      modifies this`applied, this`lastErr, this`known, this`pr, this`saved, this`st, this`disk, this`versions, this`log, this`peak, fs
      ensures Inv() && fs.repoints == old(fs.repoints)
      ensures ConnectAnswer(old(st), kind, ref, hostRef, lun, r) && (r == Degraded ==> old(lastErr).Some? && lastErr.Some?)
      ensures r in {NoSuch, Conflict, BadInput, AlreadyDone, Degraded} ==> st == old(st) && disk == old(disk)
      ensures Undone(r) ==> st == SnapshotOf(old(st)) && disk == old(disk)
      ensures r in {Done, StoredNotDurable, NotReconciled} ==> disk == st && Linked(old(st), st, kind, ref, hostRef, lun)
    {
      var refusal, c := Seated(kind, ref, hostRef, lun);
      if refusal.Some? {
        return refusal.value;
      }
      r := Commit(Joined(c));
      ConnectGoes(old(st), kind, ref, hostRef, lun, c, r);
    }

    /** The connection asked for, or why it cannot be. */
    method Seated(kind: Kind, ref: string, hostRef: string, lun: Option<int>) returns (refusal: Option<Outcome>, c: Connection)
      requires Base()
      ensures refusal.Some? ==> refusal.value in {NoSuch, Conflict, BadInput, AlreadyDone} && ConnectAnswer(st, kind, ref, hostRef, lun, refusal.value)
      ensures refusal.None? ==> Allowed(st, Joined(c), Ever(log)) && Linked(st, AddConn(st, c), kind, ref, hostRef, lun)
      ensures refusal.None? ==> Connectable(st, kind, ref, hostRef, lun, c)
    {
      c := Connection("", "", 0);
      ConnectMisses(st, kind, ref, hostRef, lun);
      var o := ResolveObject(st.objects, kind, ref);
      if o.None? { return Some(NoSuch), c; }
      if !o.value.state.Ready? { return Some(Conflict), c; }
      var h := ResolveHost(st.hosts, hostRef);
      if h.None? { return Some(NoSuch), c; }
      if lun.None? || lun.value < 0 || lun.value > MAX_LUN { return Some(BadInput), c; }
      refusal, c := SeatFor(kind, ref, hostRef, lun, o.value, h.value);
    }

    method SeatFor(kind: Kind, ref: string, hostRef: string, lun: Option<int>, o: Object, h: Host) returns (refusal: Option<Outcome>, c: Connection)
      requires Base() && ObjectOf(st.objects, kind, ref) == Some(o) && Resolves(st.objects, kind, ref, Some(o)) && o.state.Ready?
      requires HostOf(st.hosts, hostRef) == Some(h) && h in st.hosts && IsHost(h, hostRef) && GoodLun(lun)
      ensures refusal.Some? ==> refusal.value in {NoSuch, Conflict, BadInput, AlreadyDone} && ConnectAnswer(st, kind, ref, hostRef, lun, refusal.value)
      ensures refusal.None? ==> Allowed(st, Joined(c), Ever(log)) && Linked(st, AddConn(st, c), kind, ref, hostRef, lun)
      ensures refusal.None? ==> Connectable(st, kind, ref, hostRef, lun, c)
    {
      c := Connection(o.uuid, h.uuid, lun.value);
      ReachableOk(st, log, peak);
      var seat := SeatOf(st.conns, c);
      ConnectStops(st, kind, ref, hostRef, lun, c, seat);
      refusal := match seat case Free => None case Same => Some(AlreadyDone) case Taken => Some(Conflict);
    }

    /** Disconnect (appliance/hosts.go:366-420). */
    method Disconnect(kind: Kind, ref: string, hostRef: string) returns (r: Outcome)
      requires Inv()
      modifies this`applied, this`lastErr, this`known, this`pr, this`saved, this`st, this`disk, this`versions, this`log, this`peak, fs
      ensures Inv() && fs.repoints == old(fs.repoints)
      ensures DisconnectAnswer(old(st), kind, ref, hostRef, r) && (r == Degraded ==> old(lastErr).Some? && lastErr.Some?)
      ensures r in {NoSuch, AlreadyDone, Degraded} ==> st == old(st) && disk == old(disk)
      ensures Undone(r) ==> st == SnapshotOf(old(st)) && disk == old(disk)
      ensures r in {Done, StoredNotDurable, NotReconciled} ==> disk == st && Unlinked(old(st), st, kind, ref, hostRef)
    {
      var o := ResolveObject(st.objects, kind, ref);
      if o.None? { return NoSuch; }
      var h := ResolveHost(st.hosts, hostRef);
      if h.None? { return NoSuch; }
      var any := AnyConnection(st.conns, Some(o.value.uuid), Some(h.value.uuid));
      if !any { return AlreadyDone; }
      r := Commit(Parted(o.value.uuid, h.value.uuid));
    }

    /** CreateHost (appliance/hosts.go:25-68). */
    method CreateHost(name: string, iqns: seq<string>, uuid: string) returns (r: Outcome)
      requires Inv() && ValidUuid(uuid) && uuid !in HostUuids(st.hosts)
      modifies this`applied, this`lastErr, this`known, this`pr, this`saved, this`st, this`disk, this`versions, this`log, this`peak, fs
      ensures Inv() && fs.repoints == old(fs.repoints)
      ensures HostAnswer(old(st), name, iqns, r) && (r == Degraded ==> old(lastErr).Some? && lastErr.Some?)
      ensures r in {Conflict, BadInput, AlreadyDone, Degraded} ==> st == old(st) && disk == old(disk)
      ensures Undone(r) ==> st == SnapshotOf(old(st)) && disk == old(disk)
      ensures r in {Done, StoredNotDurable, NotReconciled} ==> disk == st == AddHost(old(st), Host(uuid, name, iqns))
    {
      if !ValidName(name) { return BadInput; }
      var existing := HostNamed(name);
      if existing.Some? {
        return if multiset(existing.value.iqns) == multiset(iqns) then AlreadyDone else Conflict;
      }
      var ok := CheckIqns(st.hosts, iqns, "");
      if !ok { return BadInput; }
      r := Commit(NewHost(Host(uuid, name, iqns)));
    }

    /** hostByName (appliance/model.go:188-195). */
    method HostNamed(name: string) returns (h: Option<Host>)
      ensures h.None? <==> HostNameFree(st.hosts, name)
      ensures h.Some? ==> h.value in st.hosts && h.value.name == name
    {
      for i := 0 to |st.hosts|
        invariant forall j | 0 <= j < i :: st.hosts[j].name != name
      {
        if st.hosts[i].name == name {
          return Some(st.hosts[i]);
        }
      }
      return None;
    }

    /** SetBindings (appliance/hosts.go:155-241). */
    method SetBindings(ref: string, replace: Option<seq<string>>, add: seq<string>, remove: seq<string>) returns (r: Outcome)
      requires Inv()
      modifies this`applied, this`lastErr, this`known, this`pr, this`saved, this`st, this`disk, this`versions, this`log, this`peak, fs
      ensures Inv() && fs.repoints == old(fs.repoints)
      ensures (r == NoSuch <==> HostOf(old(st).hosts, ref).None?) && (r == Degraded ==> old(lastErr).Some? && lastErr.Some?)
      ensures r in {NoSuch, BadInput, Degraded} ==> st == old(st) && disk == old(disk)
      ensures Undone(r) ==> st == SnapshotOf(old(st)) && disk == old(disk)
      ensures r in {Done, StoredNotDurable, NotReconciled} ==> disk == st && BoundTo(old(st), st, ref, replace, add, remove)
    {
      var h := ResolveHost(st.hosts, ref);
      if h.None? { return NoSuch; }
      var next := NextBindings(h.value.iqns, replace, add, remove);
      var ok := CheckIqns(st.hosts, next, h.value.uuid);
      if !ok { return BadInput; }
      assert Requested(h.value.iqns, replace, add, remove, next);
      r := Commit(Rebound(h.value.uuid, next));
    }

    /** DeleteHost (appliance/hosts.go:244-271). */
    method DeleteHost(ref: string) returns (r: Outcome)
      requires Inv()
      modifies this`applied, this`lastErr, this`known, this`pr, this`saved, this`st, this`disk, this`versions, this`log, this`peak, fs
      ensures Inv() && fs.repoints == old(fs.repoints)
      ensures UnhostAnswer(old(st), ref, r) && (r == Degraded ==> old(lastErr).Some? && lastErr.Some?)
      ensures r in {NoSuch, Conflict, Degraded} ==> st == old(st) && disk == old(disk)
      ensures Undone(r) ==> st == SnapshotOf(old(st)) && disk == old(disk)
      ensures r in {Done, StoredNotDurable, NotReconciled} ==> disk == st && HostDropped(old(st), st, ref)
    {
      var h := ResolveHost(st.hosts, ref);
      if h.None? { return NoSuch; }
      var any := AnyConnection(st.conns, None, Some(h.value.uuid));
      if any { return Conflict; }
      r := Commit(HostGone(h.value.uuid));
    }

    // ----- objects -----

    /** Create (appliance/objects.go:104-218), the record half: the object is unconnected, so no
        reconcile follows.  The identity is fresh; a zero block size or size takes its default. */
    method Create(kind: Kind, name: string, size: int, blockSize: int, source: Option<(Kind, string)>, uuid: string, wwn: string)
      returns (r: Outcome)
      requires Inv() && ValidUuid(uuid) && uuid !in Ever(log) && IsHex16(wwn) && wwn !in Wwns(st.objects)
      modifies this`pr, this`saved, this`st, this`disk, this`versions, this`log, this`peak
      ensures Inv()
      ensures r in {NoSuch, Conflict, BadInput, AlreadyDone} ==> st == old(st) && disk == old(disk)
      ensures r == NotStored ==> st == SnapshotOf(old(st)) && disk == old(disk)
      ensures r in {Done, StoredNotDurable} ==> disk == st && exists o :: st == AddObject(old(st), o) && o.uuid == uuid && o.name == name
    {
      var bs := if blockSize == 0 then 512 else blockSize;
      if !ValidName(name) || bs !in {512, 4096} { return BadInput; }
      var existing := ByName(st.objects, kind, name);
      if existing.Some? {
        var same := MatchExisting(existing.value, bs, source);
        return if same then AlreadyDone else Conflict;
      }
      var o;
      r, o := Inherit(Object(uuid, name, kind, wwn, size, bs, Ready, ""), source);
      if r != Done { return; }
      if !GoodSize(o.capacity) { return BadInput; }
      NewObjectUnseen(st, o, log, peak, withheld.Keys + {prClearing});
      r := PersistOnly(NewObject(o));
    }

    /** A copy takes its source's geometry and, unless grown, its size (appliance/objects.go:142-162). */
    method Inherit(draft: Object, source: Option<(Kind, string)>) returns (r: Outcome, o: Object)
      requires Base() && draft.blockSize in {512, 4096}
      ensures r in {Done, NoSuch, Conflict, BadInput}
      ensures o == draft.(blockSize := o.blockSize, source := o.source, capacity := o.capacity)
      ensures r == Done ==> o.blockSize in {512, 4096}
      ensures r == Done && source.None? ==> o == draft
      ensures r == Done && source.Some? ==> CopyOf(o, st.objects, source.value.0, source.value.1)
    {
      r, o := Done, draft;
      if source.Some? {
        var src := ResolveObject(st.objects, source.value.0, source.value.1);
        if src.None? { return NoSuch, draft; }
        if !src.value.state.Ready? { return Conflict, draft; }
        o := o.(blockSize := src.value.blockSize, source := src.value.uuid,
                capacity := if draft.capacity == 0 then src.value.capacity else draft.capacity);
        if o.capacity < src.value.capacity { return BadInput, draft; }
        ReachableOk(st, log, peak);
        assert ObjectOk(src.value);
      }
    }

    /** matchExisting (appliance/objects.go:244-282): capacity is deliberately not compared. */
    method MatchExisting(existing: Object, blockSize: int, source: Option<(Kind, string)>) returns (same: bool)
      ensures same ==> existing.blockSize == blockSize
      ensures same && source.Some? && source.value.1 != existing.source ==>
                exists o :: Resolves(st.objects, source.value.0, source.value.1, Some(o)) && o.uuid == existing.source
    {
      if existing.blockSize != blockSize {
        return false;
      }
      if source.Some? && source.value.1 != existing.source {
        var src := ResolveObject(st.objects, source.value.0, source.value.1);
        return src.Some? && src.value.uuid == existing.source;
      }
      return true;
    }

    /** Rename (appliance/objects.go:321-354). */
    method Rename(kind: Kind, ref: string, name: string) returns (r: Outcome)
      requires Inv()
      modifies this`pr, this`saved, this`st, this`disk, this`versions, this`log, this`peak
      ensures Inv()
      ensures RenameAnswer(old(st), kind, ref, name, r)
      ensures r in {NoSuch, Conflict, BadInput, AlreadyDone} ==> st == old(st) && disk == old(disk)
      ensures r == NotStored ==> st == SnapshotOf(old(st)) && disk == old(disk)
      ensures r in {Done, StoredNotDurable} ==> disk == st && Renamed(old(st), st, kind, ref, name)
    {
      if !ValidName(name) { return BadInput; }
      var o := ResolveObject(st.objects, kind, ref);
      if o.None? { return NoSuch; }
      if o.value.name == name { return AlreadyDone; }
      var other := ByName(st.objects, kind, name);
      if other.Some? { return Conflict; }
      var now := o.value.(name := name);
      EditUnseen(st, o.value, now, log, peak, withheld.Keys + {prClearing});
      r := PersistOnly(Rewritten(o.value, now));
    }

    /** Resize (appliance/objects.go:412-461), the record half: persist, then tell the kernel. */
    method Resize(kind: Kind, ref: string, size: int) returns (r: Outcome)
      requires Inv()
      modifies this`applied, this`lastErr, this`known, this`pr, this`saved, this`st, this`disk, this`versions, this`log, this`peak, fs
      ensures Inv() && fs.repoints == old(fs.repoints)
      ensures ResizeAnswer(old(st), kind, ref, size, r) && (r == Degraded ==> old(lastErr).Some? && lastErr.Some?)
      ensures r in {NoSuch, BadInput, AlreadyDone, Degraded} ==> st == old(st) && disk == old(disk)
      ensures r == NotStored ==> st == SnapshotOf(old(st)) && disk == old(disk)
      ensures r in {Done, StoredNotDurable, NotReconciled} ==> disk == st && Grown(old(st), st, kind, ref, size)
    {
      var o := ResolveObject(st.objects, kind, ref);
      if o.None? { return NoSuch; }
      if size == o.value.capacity { return AlreadyDone; }
      if size < o.value.capacity || !GoodSize(size) { return BadInput; }
      var err := HealIfDegraded();
      if err != Ok { return Degraded; }
      var now := o.value.(capacity := size);
      EditUnseen(st, o.value, now, log, peak, withheld.Keys + {prClearing});
      r := PersistOnly(Rewritten(o.value, now));
      if r == Done {
        err := Converge();
        r := if err == Ok then Done else NotReconciled;
      }
    }

    // ----- what is left out on purpose -----

    /** setClearing (appliance/appliance.go:1216-1220). */
    method SetClearing(name: string)
      requires Base() && CoveredBy(st, prClearing, withheld, name, withheldNames)
      modifies this`clearing
      ensures Base() && clearing == name
    {
      clearing := name;
    }

    /** The object the clear in flight holds out of the desired config. */
    method SetPrClearing(u: string)
      requires Base() && (u == "" || u in Ever(log)) && CoveredBy(st, u, withheld, clearing, withheldNames)
      modifies this`prClearing
      ensures Base() && prClearing == u
    {
      prClearing := u;
    }

    /** holdBack (appliance/appliance.go:1237-1243): held back first, published second, so for a
        moment only the clear in flight covers the object. */
    method HoldBack(u: string, name: string)
      requires Base() && withheldNames == withheld && ValidUuid(u) && u in Ever(log) && NotBuilt(fs.tree.objs, u)
      requires forall o | o in st.objects && o.uuid == u :: clearing == o.name
      modifies this`withheld, this`withheldNames
      ensures Base() && withheld == withheldNames == old(withheld)[u := name]
    {
      withheld := withheld[u := name];
      assert CoveredBy(st, prClearing, withheld, clearing, withheldNames);
      withheldNames := withheld;
    }

    /** releaseHold (appliance/appliance.go:1249-1255): one object, never the whole set. */
    method ReleaseHold(u: string)
      requires Base() && withheldNames == withheld
      requires CoveredBy(st, prClearing, withheld - {u}, clearing, withheldNames - {u})
      modifies this`withheld, this`withheldNames
      ensures Base() && withheld == withheldNames == old(withheld) - {u}
    {
      if u !in withheld {
        assert withheld - {u} == withheld;
        return;
      }
      withheld := withheld - {u};
      assert CoveredBy(st, prClearing, withheld, clearing, withheldNames);
      withheldNames := withheld;
    }

    /** HealthSnapshot (appliance/appliance.go:1328-1334), what it says of holds. */
    method Health() returns (underway: string, held: set<string>)
      requires Base()
      ensures underway == clearing && held == withheldNames.Values
      ensures forall o | LeftOut(st, prClearing, withheld, o) && OwnName(withheldNames, o) && clearing != o.name ::
                o.uuid in withheldNames && (o.name in held <==> withheldNames[o.uuid] == o.name)
    {
      forall o | LeftOut(st, prClearing, withheld, o) && OwnName(withheldNames, o) {
        ToldByName(st, prClearing, withheld, clearing, withheldNames, o);
      }
      underway, held := clearing, withheldNames.Values;
    }

    /** discardSavedPRChecked (appliance/clearpr.go:358-381): removed, and then proven gone. */
    method DiscardSaved(wwn: string) returns (ok: bool)
      requires Base()
      modifies this`saved
      ensures Base()
      ensures saved in {old(saved), old(saved) - {wwn}}
      ensures ok ==> wwn !in saved
    {
      var removable: bool, readable: bool := *, *;
      if wwn in saved {
        if !removable {
          return false;
        }
        saved := saved - {wwn};
      }
      ok := readable;
    }

    /** Delete (appliance/objects.go:357-399), the record half. */
    method Delete(kind: Kind, ref: string) returns (r: Outcome)
      requires Inv()
      modifies this`applied, this`lastErr, this`known, this`pr, this`saved, this`st, this`disk, this`versions, this`log, this`peak,
               this`withheld, this`withheldNames, fs
      ensures Inv() && fs.repoints == old(fs.repoints)
      ensures DeleteAnswer(old(st), kind, ref, r) && (r == Degraded ==> old(lastErr).Some? && lastErr.Some?)
      ensures r in {NoSuch, Conflict, Degraded} ==> st == old(st) && disk == old(disk)
      ensures r == NotStored ==> st == SnapshotOf(old(st)) && disk == old(disk)
      ensures r in {Done, StoredNotDurable} ==> disk == st && Dropped(old(st), st, kind, ref)
      // a hold is lifted only from the object that is gone
      ensures OnlyGoneLifted(old(withheld), withheld, st.objects)
    {
      var o := ResolveObject(st.objects, kind, ref);
      if o.None? { return NoSuch; }
      var any := AnyConnection(st.conns, Some(o.value.uuid), None);
      if any { return Conflict; }
      var err := HealIfDegraded();
      if err != Ok { return Degraded; }
      r := Erase(o.value);
    }

    /** Record first, then what else was kept for the object (appliance/objects.go:385-397). */
    method Erase(o: Object) returns (r: Outcome)
      requires Inv() && o.uuid !in Connected(st.conns)
      modifies this`pr, this`saved, this`st, this`disk, this`versions, this`log, this`peak, this`withheld, this`withheldNames
      ensures Inv()
      ensures r == NotStored ==> st == SnapshotOf(old(st)) && disk == old(disk)
      ensures r in {Done, StoredNotDurable} ==> disk == st == DropObject(old(st), o.uuid)
      ensures r in {Done, StoredNotDurable, NotStored}
      ensures OnlyGoneLifted(old(withheld), withheld, st.objects)
    {
      DeletedUnseen(st, o.uuid, log, peak, withheld.Keys + {prClearing});
      r := PersistOnly(Deleted(o.uuid));
      if r == Done {
        Bury(o);
      }
    }

    method Bury(o: Object)
      requires Inv() && o.uuid !in Uuids(st.objects)
      modifies this`withheld, this`withheldNames, this`saved
      ensures Inv() && withheld == old(withheld) - {o.uuid}
    {
      DiscardQuietly(o.wwn);
      Forget(o.uuid);
    }

    /** discardSavedPR: best effort, since nothing can replay the record of a deleted object. */
    method DiscardQuietly(wwn: string)
      requires Inv()
      modifies this`saved
      ensures Inv()
    {
      var gone := DiscardSaved(wwn);
    }

    /** A deleted object cannot still be withheld. */
    method Forget(u: string)
      requires Inv() && u !in Uuids(st.objects)
      modifies this`withheld, this`withheldNames
      ensures Inv() && withheld == old(withheld) - {u}
    {
      GoneIrrelevant(fs.tree, st, withheld, withheld - {u}, prClearing, u, settings);
      DropHold(u);
    }

    method DropHold(u: string)
      requires Base() && AtRest(st, prClearing, withheld, clearing, withheldNames) && u !in Uuids(st.objects)
      modifies this`withheld, this`withheldNames
      ensures Base() && AtRest(st, prClearing, withheld, clearing, withheldNames) && withheld == old(withheld) - {u}
    {
      ForgetCovered(st, prClearing, withheld, withheld - {u}, u);
      ReleaseHold(u);
    }

    // ----- ClearReservation -----

    /** backstoreOf (appliance/clearpr.go:331-340). */
    method BackstoreOf(u: string) returns (b: Option<Backstore>)
      requires Base() && ValidUuid(u)
      ensures b.Some? ==> u in Shown(st, withheld.Keys + {prClearing}) && u in st.exports && b.value.key == KeyOf(st.exports, u)
      ensures b.None? ==> u !in Shown(st, withheld.Keys + {prClearing})
    {
      var cfg, order := BuildAsked(st, withheld.Keys + {prClearing}, settings, log, peak);
      ReachableOk(st, log, peak);
      ShownPresentable(st, order, withheld.Keys + {prClearing});
      BackstoresAre(st, order, settings);
      b := SearchName(cfg.backstores, st, order, settings, u);
    }

    /** fenceStateOf (appliance/clearpr.go:411-428): no device is knowledge, not ignorance. */
    method FenceStateOf(u: string, f: Fate) returns (v: Fence, have: bool, read: PrRead)
      requires Base() && ValidUuid(u)
      ensures have <==> u in Shown(st, withheld.Keys + {prClearing})
      ensures !have ==> v == Down
      ensures have ==> u in st.exports && Found(v, read, f, KeyOf(st.exports, u) in fs.tree.objs, PrAt(pr, KeyOf(st.exports, u)))
    {
      read := PrRead(true, None, {}, false);
      var b := BackstoreOf(u);
      if b.None? {
        return Down, false, read;
      }
      have := true;
      var r := ReadOf(f, b.value.key in fs.tree.objs, PrAt(pr, b.value.key));
      if r.None? || !r.value.known {
        return Unknown, true, read;
      }
      read := r.value;
      v := if read.holder.Some? then Up else Down;
    }

    /** The state a clear keeps between its steps, its object being o. */
    ghost predicate Clearing(o: Object)
      reads this, fs
    {
      && fs.Inv() && Base() && o in st.objects && clearing == o.name && withheldNames == withheld
      && pr.Keys <= fs.tree.objs.Keys && OnDisk(disk, versions, st)
    }

    /** One reconcile of a clear, and the initiators after it. */
    method ClearStep(o: Object, u: string) returns (err: Err)
      requires Clearing(o) && u in {"", o.uuid}
      modifies this`prClearing, this`applied, this`lastErr, this`known, this`pr, this`saved, fs
      ensures Clearing(o) && prClearing == u && fs.repoints == old(fs.repoints)
      ensures lastErr == if err == Ok then None else Some(err)
      ensures err == Ok ==> InSync(fs.tree, st, withheld.Keys + {prClearing}, settings)
    {
      err := ClearPass(o, u);
    }

    /** The same, with what it did for every object. */
    method ClearPass(o: Object, u: string) returns (err: Err)
      requires Clearing(o) && u in {"", o.uuid}
      modifies this`prClearing, this`applied, this`lastErr, this`known, this`pr, this`saved, fs
      ensures Clearing(o) && prClearing == u && fs.repoints == old(fs.repoints)
      ensures lastErr == if err == Ok then None else Some(err)
      ensures err == Ok ==> InSync(fs.tree, st, withheld.Keys + {prClearing}, settings)
      ensures Orderly(old(fs.tree), fs.tree, st.objects, old(saved))
    {
      ClearCovered(st, log, peak, o, withheld);
      OnlyOne(st, log, peak, o);
      SetPrClearing(u);
      err := Reconcile();
      Traffic();
    }

    /** verifyCleared (appliance/clearpr.go:466-518). */
    method VerifyCleared(o: Object, f: Fate) returns (code: Code)
      requires Clearing(o) && lastErr.None? && InSync(fs.tree, st, withheld.Keys + {prClearing}, settings)
      ensures Agrees(code, f, lastErr.Some?, pr, o.uuid) && !Declined(code)
      ensures Legible(f) ==> code == Verified(f, o.uuid in Shown(st, withheld.Keys + {prClearing}), pr, o.uuid)
    {
      var v, have, read := Examine(o, f);
      code := ClearCode(v, have, read);
    }

    /** Read the fence of an object on a tree in sync. */
    method Examine(o: Object, f: Fate) returns (v: Fence, have: bool, read: PrRead)
      requires Clearing(o) && InSync(fs.tree, st, withheld.Keys + {prClearing}, settings)
      ensures have <==> o.uuid in Shown(st, withheld.Keys + {prClearing})
      ensures Agrees(ClearCode(v, have, read), f, false, pr, o.uuid) && Agrees(RecoverCode(v), f, false, pr, o.uuid)
      ensures Legible(f) ==> ClearCode(v, have, read) == Verified(f, have, pr, o.uuid)
      ensures Legible(f) ==> RecoverCode(v) == if Unheld(pr, o.uuid) then FenceDropped else ClearUnverified
    {
      OnlyOne(st, log, peak, o);
      ReadingCovers(fs.tree, st, withheld.Keys + {prClearing}, settings, o.uuid, pr, log, peak);
      v, have, read := FenceStateOf(o.uuid, f);
      VerdictsAgree(v, have, read, f, fs.tree, st, pr, o.uuid);
    }

    /** recoverFromFailedPrune (appliance/clearpr.go:538-616). */
    method RecoverFromFailedPrune(o: Object, f: Fate) returns (code: Code)
      requires Clearing(o)
      modifies this`prClearing, this`applied, this`lastErr, this`known, this`pr, this`saved, fs
      ensures Clearing(o) && prClearing == "" && fs.repoints == old(fs.repoints)
      ensures lastErr.None? ==> InSync(fs.tree, st, withheld.Keys + {prClearing}, settings)
      ensures Agrees(code, f, lastErr.Some?, pr, o.uuid)
      ensures lastErr.None? && Legible(f) ==> code == if Unheld(pr, o.uuid) then FenceDropped else ClearUnverified
      ensures code in {FenceDropped, ClearUnverified, FenceUnknown}
    {
      var err := ClearStep(o, "");
      if err != Ok {
        return FenceUnknown;
      }
      var v, have, read := Examine(o, f);
      code := RecoverCode(v);
    }

    /** Phase 3 (appliance/clearpr.go:274-315): rebuild, then re-read rather than assume. */
    method Rebuild(o: Object, f: Fate) returns (code: Code)
      requires Clearing(o) && NotBuilt(fs.tree.objs, o.uuid) && o.wwn !in saved
      modifies this`prClearing, this`applied, this`lastErr, this`known, this`pr, this`saved, fs
      ensures Clearing(o) && prClearing == "" && fs.repoints == old(fs.repoints)
      ensures lastErr.None? ==> InSync(fs.tree, st, withheld.Keys + {prClearing}, settings)
      ensures Agrees(code, f, lastErr.Some?, pr, o.uuid) && !Declined(code)
      ensures lastErr.None? && Legible(f) ==> code == Verified(f, o.uuid in Shown(st, withheld.Keys + {prClearing}), pr, o.uuid)
      ensures Unreplayed(fs.tree.objs, o.uuid)
    {
      BuildAfresh(o);
      code := Judge(o, f);
    }

    /** What is said of a rebuild depends on how it went and on what can be read. */
    method Judge(o: Object, f: Fate) returns (code: Code)
      requires Clearing(o) && (lastErr.None? ==> InSync(fs.tree, st, withheld.Keys + {prClearing}, settings))
      ensures Agrees(code, f, lastErr.Some?, pr, o.uuid) && !Declined(code)
      ensures lastErr.None? && Legible(f) ==> code == Verified(f, o.uuid in Shown(st, withheld.Keys + {prClearing}), pr, o.uuid)
    {
      if lastErr.None? {
        code := VerifyCleared(o, f);
      } else {
        code := JudgeFailure(o, f);
      }
    }

    method BuildAfresh(o: Object)
      requires Clearing(o) && NotBuilt(fs.tree.objs, o.uuid) && o.wwn !in saved
      modifies this`prClearing, this`applied, this`lastErr, this`known, this`pr, this`saved, fs
      ensures Clearing(o) && prClearing == "" && fs.repoints == old(fs.repoints)
      ensures lastErr.None? ==> InSync(fs.tree, st, withheld.Keys + {prClearing}, settings)
      ensures Unreplayed(fs.tree.objs, o.uuid)
    {
      ghost var t0, recorded := fs.tree, saved;
      var err := ClearPass(o, "");
      NewUnreplayed(t0, fs.tree, st.objects, recorded, o);
    }

    /** A rebuild that failed: what is said depends on whether the fence could be read. */
    method JudgeFailure(o: Object, f: Fate) returns (code: Code)
      requires Clearing(o) && lastErr.Some?
      ensures Agrees(code, f, lastErr.Some?, pr, o.uuid) && !Declined(code) && code in {FenceUnknown, ReconcileFailed}
    {
      OnlyOne(st, log, peak, o);
      var v, have, read := FenceStateOf(o.uuid, f);
      code := if v == Unknown then FenceUnknown else ReconcileFailed;
    }

    /** The phases of a clear. */
    method ClearPhases(o: Object, f: Fate) returns (code: Code, ghost rebuilt: bool)
      requires Clearing(o)
      modifies this`prClearing, this`applied, this`lastErr, this`known, this`pr, this`saved, this`withheld, this`withheldNames, fs
      ensures Clearing(o) && (prClearing == "" || prClearing in withheld) && fs.repoints == old(fs.repoints)
      ensures lastErr.None? ==> InSync(fs.tree, st, withheld.Keys + {prClearing}, settings)
      ensures !Declined(code) && Agrees(code, f, lastErr.Some?, pr, o.uuid)
      ensures HoldsKept(old(withheld), withheld, o, rebuilt, fs.tree.objs)
    {
      var err := ClearStep(o, o.uuid);
      code, rebuilt := AfterPrune(o, f);
    }

    /** Phase 1 is over: recover from it, or go on. */
    method AfterPrune(o: Object, f: Fate) returns (code: Code, ghost rebuilt: bool)
      requires Clearing(o) && prClearing == o.uuid
      requires lastErr.None? ==> InSync(fs.tree, st, withheld.Keys + {prClearing}, settings)
      modifies this`prClearing, this`applied, this`lastErr, this`known, this`pr, this`saved, this`withheld, this`withheldNames, fs
      ensures Clearing(o) && (prClearing == "" || prClearing in withheld) && fs.repoints == old(fs.repoints)
      ensures lastErr.None? ==> InSync(fs.tree, st, withheld.Keys + {prClearing}, settings)
      ensures !Declined(code) && Agrees(code, f, lastErr.Some?, pr, o.uuid)
      ensures HoldsKept(old(withheld), withheld, o, rebuilt, fs.tree.objs)
    {
      HeldSame(withheld, o);
      if lastErr.Some? {
        code := RecoverFromFailedPrune(o, f);
        rebuilt := false;
      } else {
        PrunedAway(fs.tree, st, withheld, settings, o, log, peak);
        code, rebuilt := FinishClear(o, f);
      }
    }

    /** Phase 2 (appliance/clearpr.go:220-272): with the backstore gone, no initiator can rewrite
        the saved record; either it is proven gone and the object rebuilt, or it is held back. */
    method FinishClear(o: Object, f: Fate) returns (code: Code, rebuilt: bool)
      requires Clearing(o) && NotBuilt(fs.tree.objs, o.uuid) && prClearing == o.uuid
      requires lastErr.None? && InSync(fs.tree, st, withheld.Keys + {prClearing}, settings)
      modifies this`prClearing, this`applied, this`lastErr, this`known, this`pr, this`saved, this`withheld, this`withheldNames, fs
      ensures Clearing(o) && (prClearing == "" || prClearing in withheld) && fs.repoints == old(fs.repoints)
      ensures lastErr.None? ==> InSync(fs.tree, st, withheld.Keys + {prClearing}, settings)
      ensures !Declined(code) && Agrees(code, f, lastErr.Some?, pr, o.uuid)
      ensures HoldsKept(old(withheld), withheld, o, rebuilt, fs.tree.objs)
    {
      rebuilt := DiscardSaved(o.wwn);
      if rebuilt {
        code := Release(o, f);
      } else {
        code := KeepOut(o, f);
      }
    }

    /** The record is gone: lift the hold and rebuild.  What initiators do meanwhile cannot bring
        the record back, since they cannot reach the object. */
    method Release(o: Object, f: Fate) returns (code: Code)
      requires Clearing(o) && NotBuilt(fs.tree.objs, o.uuid) && prClearing == o.uuid && o.wwn !in saved
      modifies this`prClearing, this`applied, this`lastErr, this`known, this`pr, this`saved, this`withheld, this`withheldNames, fs
      ensures Clearing(o) && prClearing == "" && fs.repoints == old(fs.repoints)
      ensures lastErr.None? ==> InSync(fs.tree, st, withheld.Keys + {prClearing}, settings)
      ensures !Declined(code) && Agrees(code, f, lastErr.Some?, pr, o.uuid)
      ensures HoldsKept(old(withheld), withheld, o, true, fs.tree.objs)
    {
      Lift(o);
      Wait(o);
      code := Rebuild(o, f);
      LiftHeld(old(withheld), withheld, o, fs.tree.objs);
    }

    method Lift(o: Object)
      requires Clearing(o) && prClearing == o.uuid
      modifies this`withheld, this`withheldNames
      ensures Clearing(o) && withheld == old(withheld) - {o.uuid}
    {
      LiftCovered(st, log, peak, o, withheld);
      ReleaseHold(o.uuid);
    }

    /** Meanwhile the initiators go on. */
    method Wait(o: Object)
      requires Clearing(o) && NotBuilt(fs.tree.objs, o.uuid) && o.wwn !in saved
      modifies this`pr, this`saved
      ensures Clearing(o) && o.wwn !in saved
    {
      NotBuiltNotLive(fs.tree.objs, st, log, peak, o);
      Traffic();
    }

    /** The record may still be there: hold the object back, and say so. */
    method KeepOut(o: Object, ghost f: Fate) returns (code: Code)
      requires Clearing(o) && NotBuilt(fs.tree.objs, o.uuid) && prClearing == o.uuid
      requires InSync(fs.tree, st, withheld.Keys + {prClearing}, settings)
      modifies this`pr, this`saved, this`withheld, this`withheldNames
      ensures Clearing(o) && prClearing in withheld
      ensures InSync(fs.tree, st, withheld.Keys + {prClearing}, settings)
      ensures code == FenceDropped && Agrees(code, f, lastErr.Some?, pr, o.uuid)
      ensures HoldsKept(old(withheld), withheld, o, false, fs.tree.objs)
    {
      Withhold(o);
      HeldMore(old(withheld), withheld, o, fs.tree.objs);
      WaitOut(o);
      DroppedAgrees(f, lastErr.Some?, pr, o.uuid);
      code := FenceDropped;
    }

    /** Meanwhile nobody can reserve what is not there. */
    method WaitOut(o: Object)
      requires Clearing(o) && NotBuilt(fs.tree.objs, o.uuid)
      modifies this`pr, this`saved
      ensures Clearing(o) && Unheld(pr, o.uuid)
    {
      Traffic();
      NotBuiltUnheld(pr, fs.tree.objs, o.uuid);
    }

    method Withhold(o: Object)
      requires Clearing(o) && NotBuilt(fs.tree.objs, o.uuid) && prClearing == o.uuid
      modifies this`withheld, this`withheldNames
      ensures Clearing(o) && withheld == old(withheld)[o.uuid := o.name]
      ensures withheld.Keys + {prClearing} == old(withheld.Keys + {prClearing})
    {
      HoldReady(st, log, peak, o);
      HeldKeys(withheld, o.uuid, o.name);
      HoldBack(o.uuid, o.name);
    }

    /** ClearReservation (appliance/clearpr.go:125-325).  Every answer agrees with the kernel's
        fence and with how the reading went, a declined call changes neither what is being cleared
        nor what is held back, and a hold is lifted only from the object itself, which was then
        rebuilt without a record of its reservations. */
    method ClearReservation(kind: Kind, ref: string, confirm: string, f: Fate)
      returns (code: Code, target: Option<Object>, ghost rebuilt: bool)
      requires Inv()
      modifies this`prClearing, this`applied, this`lastErr, this`known, this`pr, this`saved, this`withheld, this`withheldNames,
               this`clearing, fs
      ensures Inv() && fs.repoints == old(fs.repoints)
      ensures Declined(code) ==> prClearing == old(prClearing) && withheld == old(withheld)
      // a call is declined exactly when there is nothing of that name, the name is not repeated, the
      // object is not ready, or a tree already in error could not be healed
      ensures target == ObjectOf(st.objects, kind, ref) && RefusedFor(target, confirm, code)
      ensures code == StillDegraded ==> old(lastErr).Some? && lastErr.Some?
      ensures !Declined(code) ==> target.Some? && target.value.name == confirm && Resolves(st.objects, kind, ref, target)
      ensures !Declined(code) ==> Agrees(code, f, lastErr.Some?, pr, target.value.uuid)
      ensures !Declined(code) ==> HoldsKept(old(withheld), withheld, target.value, rebuilt, fs.tree.objs)
    {
      rebuilt := false;
      code, target := Target(kind, ref, confirm);
      if Declined(code) { return; }
      var err := HealIfDegraded();
      code, rebuilt := ClearAfterHeal(target.value, f);
    }

    method ClearAfterHeal(o: Object, f: Fate) returns (code: Code, ghost rebuilt: bool)
      requires Inv() && o in st.objects
      modifies this`prClearing, this`applied, this`lastErr, this`known, this`pr, this`saved, this`withheld, this`withheldNames,
               this`clearing, fs
      ensures Inv() && fs.repoints == old(fs.repoints) && (code == StillDegraded || !Declined(code))
      ensures code == StillDegraded ==> prClearing == old(prClearing) && withheld == old(withheld) && old(lastErr).Some? && lastErr == old(lastErr)
      ensures code != StillDegraded ==> Agrees(code, f, lastErr.Some?, pr, o.uuid) && HoldsKept(old(withheld), withheld, o, rebuilt, fs.tree.objs)
    {
      if lastErr.None? {
        code, rebuilt := ClearHealed(o, f);
      } else {
        code, rebuilt := StillDegraded, false;
      }
    }

    /** What is to be cleared, or why not. */
    method Target(kind: Kind, ref: string, confirm: string) returns (refusal: Code, target: Option<Object>)
      ensures Resolves(st.objects, kind, ref, target) && target == ObjectOf(st.objects, kind, ref)
      ensures refusal in {NotFound, Unconfirmed, Unsupported, Cleared} && RefusedFor(target, confirm, refusal)
    {
      target := ResolveObject(st.objects, kind, ref);
      refusal := if target.None? then NotFound
                 else if confirm != target.value.name then Unconfirmed
                 else if !target.value.state.Ready? then Unsupported
                 else Cleared;
    }

    method ClearHealed(o: Object, f: Fate) returns (code: Code, ghost rebuilt: bool)
      requires Inv() && o in st.objects
      modifies this`prClearing, this`applied, this`lastErr, this`known, this`pr, this`saved, this`withheld, this`withheldNames,
               this`clearing, fs
      ensures Inv() && fs.repoints == old(fs.repoints) && !Declined(code)
      ensures Agrees(code, f, lastErr.Some?, pr, o.uuid)
      ensures HoldsKept(old(withheld), withheld, o, rebuilt, fs.tree.objs)
    {
      RestCoveredAs(st, prClearing, withheld, o.name);
      SetClearing(o.name);
      code, rebuilt := ClearPhases(o, f);
      EndClear();
    }

    /** The deferred setClearing(""): nothing a return path leaves out is left uncovered. */
    method EndClear()
      requires fs.Inv() && Base() && withheldNames == withheld && pr.Keys <= fs.tree.objs.Keys
      requires prClearing == "" || prClearing in withheld
      requires lastErr.None? ==> InSync(fs.tree, st, withheld.Keys + {prClearing}, settings)
      requires OnDisk(disk, versions, st)
      modifies this`clearing
      ensures Inv()
    {
      NoEmptyUuid(st, log, peak);
      SetClearing("");
    }
  }

  /** A daemon that stops and starts again, on the kernel and the database file it left: it may
      always begin, and finds the kernel's reservations as they are. */
  method Restart(c: Coordinator) returns (next: Coordinator)
    requires c.Inv()
    ensures next.Inv() && fresh(next) && next.fs == c.fs && next.settings == c.settings && next.st == c.disk
    ensures next.saved == c.saved && next.pr == c.pr
  {
    assert Storable(c.disk);
    ghost var log, peak :| Reachable(c.disk, log, peak);
    assert c.disk.exports == SnapshotOf(c.st).exports;
    next := new Coordinator(c.settings, c.fs, c.disk, c.pr, c.saved, log, peak);
  }

  /** Power is lost and comes back: the kernel is empty, the database file is any of the versions
      that were not superseded durably, and the daemon may begin on it. */
  method Reboot(c: Coordinator, file: Db, faults: bool, misreads: nat -> bool) returns (next: Coordinator)
    requires c.Inv() && file in c.versions
    ensures next.Inv() && fresh(next) && fresh(next.fs) && next.settings == c.settings && next.st == file && next.fs.tree == EMPTY_TREE
    ensures next.saved == c.saved && next.pr == map[]
  {
    assert Storable(file);
    ghost var log, peak :| Reachable(file, log, peak);
    var kernel := new Configfs(EMPTY_TREE, faults, misreads);
    next := new Coordinator(c.settings, kernel, file, map[], c.saved, log, peak);
  }

  lemma RenamedLeftOut(db: Db, next: Db, o: Object, name: string, log: seq<Change>, peak: nat, prClearing: string, withheld: map<string, string>)
    requires Reachable(db, log, peak) && LeftOut(db, prClearing, withheld, o) && Renamed(db, next, o.kind, o.name, name)
    ensures LeftOut(next, prClearing, withheld, o.(name := name))
  {
    ReachableOk(db, log, peak);
    var x :| Resolves(db.objects, o.kind, o.name, Some(x)) && next == db.(objects := Rewrite(db.objects, x.uuid, x.(name := name)));
    KeyUnique(db.objects, NameInKind, x, o);
    RewrittenIn(db.objects, o, o.(name := name));
  }

  lemma RewrittenIn(os: seq<Object>, o: Object, now: Object)
    requires o in os
    ensures now in Rewrite(os, o.uuid, now)
  {
    var i :| 0 <= i < |os| && os[i] == o;
    assert Rewrite(os, o.uuid, now)[i] == now;
  }

  /** The failure that ToldByName's condition shuts out: a clear holds an object back, the object
      is renamed, and /health no longer names what is left out. */
  method RenamedHold(c: Coordinator, o: Object, f: Fate, name: string) returns (hidden: bool, held: set<string>)
    requires c.Inv() && o in c.st.objects
    modifies c, c.fs
    ensures c.Inv() && held == c.withheldNames.Values
    ensures hidden ==> Unnamed(c.st, c.prClearing, c.withheld, c.clearing, c.withheldNames, o.uuid)
  {
    var left := ClearedHold(c, o, f);
    hidden, held := false, c.withheldNames.Values;
    if left && name !in held && name != "" {
      hidden := RenameHeld(c, o, name);
    }
  }

  /** A clear, and whether it left the object out. */
  method ClearedHold(c: Coordinator, o: Object, f: Fate) returns (left: bool)
    requires c.Inv() && o in c.st.objects
    modifies c`prClearing, c`applied, c`lastErr, c`known, c`pr, c`saved, c`withheld, c`withheldNames, c`clearing, c.fs
    ensures c.Inv() && (left ==> LeftOut(c.st, c.prClearing, c.withheld, o))
  {
    ghost var rebuilt;
    var code, target;
    code, target, rebuilt := c.ClearReservation(o.kind, o.name, o.name, f);
    var any := AnyConnection(c.st.conns, Some(o.uuid), None);
    left := o.uuid in c.withheld && any && o.state.Ready?;
  }

  method RenameHeld(c: Coordinator, o: Object, name: string) returns (hidden: bool)
    requires c.Inv() && LeftOut(c.st, c.prClearing, c.withheld, o) && name !in c.withheldNames.Values && name != ""
    modifies c`pr, c`saved, c`st, c`disk, c`versions, c`log, c`peak
    ensures c.Inv()
    ensures hidden ==> Unnamed(c.st, c.prClearing, c.withheld, c.clearing, c.withheldNames, o.uuid)
  {
    ghost var db, log, peak := c.st, c.log, c.peak;
    var r := c.Rename(o.kind, o.name, name);
    hidden := r == Done;
    if hidden {
      RenamedLeftOut(db, c.st, o, name, log, peak, c.prClearing, c.withheld);
    }
  }
}
