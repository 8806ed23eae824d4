/** Every database the API can reach: the changes its operations make, with the checks they
    make first, from a newly initialised file. */
module Api {
  import opened LioConfig
  import opened Ensure
  import opened Sync
  import opened Diff
  import opened Database
  import opened Mutations
  import opened Translate
  import opened Coherence

  datatype Change =
    | NewObject(o: Object)
    | Rewritten(was: Object, now: Object)
    | Deleted(u: string)
    | NewHost(h: Host)
    | Rebound(u: string, iqns: seq<string>)
    | HostGone(u: string)
    | Joined(c: Connection)
    | Parted(u: string, host: string)
    | RolledBack

  /** What a rollback makes of the database: snapshotState copies every field but the two that
      say who the appliance is (appliance/appliance.go:987-988). */
  function SnapshotOf(db: Db): Db { db.(targetIqn := "", machineId := "") }

  function Changed(db: Db, ch: Change): Db {
    match ch
    case NewObject(o) => AddObject(db, o)
    case Rewritten(was, now) => db.(objects := Rewrite(db.objects, was.uuid, now))
    case Deleted(u) => DropObject(db, u)
    case NewHost(h) => AddHost(db, h)
    case Rebound(u, iqns) => SetIqns(db, u, iqns)
    case HostGone(u) => DropHost(db, u)
    case Joined(c) => AddConn(db, c)
    case Parted(u, h) => DropConn(db, u, h)
    case RolledBack => SnapshotOf(db)
  }

  /** A record is renamed, grown, or marked as having lost its bytes. */
  ghost predicate Edit(os: seq<Object>, was: Object, now: Object) {
    || (now == was.(name := now.name) && ValidName(now.name) && (now.name == was.name || NameFree(os, was.kind, now.name)))
    || (now == was.(capacity := now.capacity) && now.capacity > was.capacity)
    || now == was.(state := Missing)
  }

  /** The checks an operation makes before it changes the database; ever holds the UUIDs used
      so far, since a new one is never an old one. */
  ghost predicate Allowed(db: Db, ch: Change, ever: set<string>) {
    match ch
    case NewObject(o) =>
      ObjectOk(o) && o.uuid !in ever && o.wwn !in Wwns(db.objects) && NameFree(db.objects, o.kind, o.name)
    case Rewritten(was, now) => was in db.objects && Edit(db.objects, was, now)
    case Deleted(u) => u !in Connected(db.conns)
    case NewHost(h) =>
      && ValidUuid(h.uuid) && h.uuid !in HostUuids(db.hosts) && ValidName(h.name) && HostNameFree(db.hosts, h.name)
      && IqnsOk(h.iqns) && Unowned(db.hosts, h.iqns, "")
    case Rebound(u, iqns) => IqnsOk(iqns) && Unowned(db.hosts, iqns, u)
    case HostGone(u) => forall c | c in db.conns :: c.host != u
    case Joined(c) =>
      0 <= c.lun <= MAX_LUN && c.obj in Uuids(db.objects) && c.host in HostUuids(db.hosts) && ConnFree(db.conns, c)
    case Parted(u, h) => true
    case RolledBack => true
  }

  ghost function Ever(log: seq<Change>): set<string> {
    set ch | ch in log && ch.NewObject? :: ch.o.uuid
  }

  /** db is what the changes of log make of a new database, never with more than peak objects
      exported at once. */
  ghost predicate Reachable(db: Db, log: seq<Change>, peak: nat)
    decreases |log|
  {
    if log == [] then
      db.objects == [] && db.hosts == [] && db.conns == [] && db.exports == map[] && ValidPortals(db.portals) && NoOverlap(db.portals)
    else
      var init, last := log[..|log| - 1], log[|log| - 1];
      |db.exports| <= peak && exists prev :: Reachable(prev, init, peak) && Allowed(prev, last, Ever(init)) && db == Changed(prev, last)
  }

  lemma EditOk(os: seq<Object>, was: Object, now: Object)
    requires ObjectOk(was) && Edit(os, was, now)
    ensures ObjectOk(now) && now.uuid == was.uuid && now.kind == was.kind && now.wwn == was.wwn
    ensures now.name == was.name || NameFree(os, was.kind, now.name)
  {
  }

  /** Every change keeps the invariant. */
  lemma ChangeOk(db: Db, ch: Change, ever: set<string>)
    requires DbOk(db) && Uuids(db.objects) <= ever && Allowed(db, ch, ever)
    ensures DbOk(Changed(db, ch))
  {
    match ch
    case NewObject(o) => AddObjectOk(db, o);
    case Rewritten(was, now) => EditOk(db.objects, was, now); RewriteOk(db, was, now);
    case Deleted(u) => DropObjectOk(db, u);
    case NewHost(h) => AddHostOk(db, h);
    case Rebound(u, iqns) => SetIqnsOk(db, u, iqns);
    case HostGone(u) => DropHostOk(db, u);
    case Joined(c) => AddConnOk(db, c);
    case Parted(u, h) => DropConnOk(db, u, h);
    case RolledBack =>
  }

  lemma ChangeUuids(db: Db, ch: Change, ever: set<string>)
    requires DbOk(db) && Uuids(db.objects) <= ever && Allowed(db, ch, ever)
    ensures Uuids(Changed(db, ch).objects) <= ever + (if ch.NewObject? then {ch.o.uuid} else {})
  {
    match ch
    case Rewritten(was, now) => EditOk(db.objects, was, now); RewriteUuids(db.objects, was.uuid, now);
    case Deleted(u) => DropObjectOk(db, u);
    case _ =>
  }

  lemma ChangeBelow(db: Db, ch: Change, ever: set<string>, peak: nat)
    requires DbOk(db) && Allowed(db, ch, ever) && Below(db.exports, peak) && |Changed(db, ch).exports| <= peak
    ensures Below(Changed(db, ch).exports, peak) && ExportsStep(db.exports, Changed(db, ch).exports)
  {
    match ch
    case Joined(c) => AddConnOk(db, c); ConnectStep(db, c);
    case Parted(u, h) => DropConnOk(db, u, h); DisconnectStep(db, u, h);
    case Deleted(u) => DropObjectOk(db, u);
    case _ =>
  }

  lemma EverNext(log: seq<Change>)
    requires log != []
    ensures var last := log[|log| - 1];
            Ever(log) == Ever(log[..|log| - 1]) + (if last.NewObject? then {last.o.uuid} else {})
  {
    assert log == log[..|log| - 1] + [log[|log| - 1]];
  }

  /** The invariant of every database the API can reach. */
  lemma {:induction false} ReachableOk(db: Db, log: seq<Change>, peak: nat)
    requires Reachable(db, log, peak)
    ensures DbOk(db) && Uuids(db.objects) <= Ever(log) && Below(db.exports, peak) && |db.exports| <= peak
    decreases |log|
  {
    if log != [] {
      var init, last := log[..|log| - 1], log[|log| - 1];
      var prev :| Reachable(prev, init, peak) && Allowed(prev, last, Ever(init)) && db == Changed(prev, last);
      ReachableOk(prev, init, peak);
      ChangeOk(prev, last, Ever(init));
      ChangeUuids(prev, last, Ever(init));
      ChangeBelow(prev, last, Ever(init), peak);
      EverNext(log);
    }
  }

  /** The block size each object was made with. */
  ghost function Born(log: seq<Change>): map<string, int> {
    if log == [] then map[]
    else
      var m, last := Born(log[..|log| - 1]), log[|log| - 1];
      if last.NewObject? && last.o.uuid !in m then m[last.o.uuid := last.o.blockSize] else m
  }

  lemma {:induction false} BornEver(log: seq<Change>)
    ensures Born(log).Keys == Ever(log)
  {
    if log != [] {
      BornEver(log[..|log| - 1]);
      EverNext(log);
    }
  }

  lemma BornNext(log: seq<Change>, ch: Change)
    ensures forall u | u in Born(log) :: u in Born(log + [ch]) && Born(log + [ch])[u] == Born(log)[u]
  {
    assert (log + [ch])[..|log + [ch]| - 1] == log;
  }

  ghost predicate AsBorn(os: seq<Object>, born: map<string, int>) {
    forall o | o in os :: o.uuid in born && o.blockSize == born[o.uuid]
  }

  /** No operation changes a block size. */
  lemma {:induction false} ReachableBorn(db: Db, log: seq<Change>, peak: nat)
    requires Reachable(db, log, peak)
    ensures AsBorn(db.objects, Born(log))
    decreases |log|
  {
    if log != [] {
      var init, last := log[..|log| - 1], log[|log| - 1];
      var prev :| Reachable(prev, init, peak) && Allowed(prev, last, Ever(init)) && db == Changed(prev, last);
      ReachableOk(prev, init, peak);
      ReachableBorn(prev, init, peak);
      BornEver(init);
      ChangeBorn(prev, last, Ever(init), Born(init));
    }
  }

  lemma ChangeBorn(db: Db, ch: Change, ever: set<string>, born: map<string, int>)
    requires DbOk(db) && Allowed(db, ch, ever) && AsBorn(db.objects, born) && born.Keys == ever
    ensures AsBorn(Changed(db, ch).objects, if ch.NewObject? && ch.o.uuid !in born then born[ch.o.uuid := ch.o.blockSize] else born)
  {
    match ch
    case Deleted(u) => DropObjectOk(db, u);
    case Rewritten(was, now) => assert now.uuid == was.uuid && now.blockSize == was.blockSize;
    case _ =>
  }

  /** One more change. */
  lemma ReachableNext(db: Db, log: seq<Change>, peak: nat, ch: Change)
    requires Reachable(db, log, peak) && Allowed(db, ch, Ever(log)) && |Changed(db, ch).exports| <= peak
    ensures Reachable(Changed(db, ch), log + [ch], peak)
  {
    assert (log + [ch])[..|log + [ch]| - 1] == log;
  }

  /** More room does no harm. */
  lemma {:induction false} ReachableMore(db: Db, log: seq<Change>, peak: nat, more: nat)
    requires Reachable(db, log, peak) && peak <= more
    ensures Reachable(db, log, more)
    decreases |log|
  {
    if log != [] {
      var init, last := log[..|log| - 1], log[|log| - 1];
      var prev :| Reachable(prev, init, peak) && Allowed(prev, last, Ever(init)) && db == Changed(prev, last);
      ReachableMore(prev, init, peak, more);
    }
  }

  /** Whatever the API wrote, the next start accepts and can translate. */
  lemma ReachableStarts(db: Db, log: seq<Change>, order: seq<string>, out: set<string>, s: Settings)
    requires Reachable(db, log, MAX_LUN + 1) && SettingsOk(s) && Lists(order, Shown(db, out))
    ensures Loadable(db)
    ensures Presentable(db, order) && Shown(db, out) <= db.exports.Keys
    ensures Valid(Desired(db, order, Shown(db, out), s)) && PortalsFit(Desired(db, order, Shown(db, out), s))
  {
    ReachableOk(db, log, MAX_LUN + 1);
    ReachableIsLoadable(db);
    DesiredValid(db, order, out, s);
  }
}
