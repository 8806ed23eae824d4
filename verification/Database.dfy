/** The appliance's durable document (appliance/model.go) and what the API keeps true of it. */
module Database {
  import opened LioConfig
  import opened Ensure
  import opened Diff

  datatype Kind = Volume | Snapshot
  datatype State = Ready | Missing

  datatype Object = Object(uuid: string, name: string, kind: Kind, wwn: string, capacity: int,
                           blockSize: int, state: State, source: string)
  datatype Host = Host(uuid: string, name: string, iqns: seq<string>)
  datatype Connection = Connection(obj: string, host: string, lun: int)
  datatype Db = Db(version: int, objects: seq<Object>, hosts: seq<Host>, conns: seq<Connection>,
                   exports: map<string, int>, portals: seq<Portal>, targetIqn: string, machineId: string)

  const MAX_LUN := 16383
  const MAX_NAME_LEN := 255

  // ----- well-formed fields -----

  /** validUUID (appliance/appliance.go:851-868). */
  predicate ValidUuid(s: string) {
    |s| == 36 && forall i | 0 <= i < 36 :: if i in {8, 13, 18, 23} then s[i] == '-' else Hex(s[i])
  }

  predicate Hex(c: char) { '0' <= c <= '9' || 'a' <= c <= 'f' }

  predicate Space(c: char) { c in " \t\n\r" || c == 0x0b as char || c == 0x0c as char }

  /** validName (appliance/name.go:33-63). */
  predicate ValidName(s: string) {
    && s != "" && |s| <= MAX_NAME_LEN && s != "." && s != ".."
    && !Space(s[0]) && !Space(s[|s| - 1])
    && forall c | c in s :: c != '/' && c >= ' ' && c != 0x7f as char && (Space(c) ==> c == ' ')
  }

  // ----- keys -----

  function ObjectKey(o: Object): string { o.uuid }
  function HostKey(h: Host): string { h.uuid }
  function HostName(h: Host): string { h.name }
  function WwnKey(o: Object): string { o.wwn }
  function NameInKind(o: Object): (Kind, string) { (o.kind, o.name) }
  function PairKey(c: Connection): (string, string) { (c.host, c.obj) }
  function LunKeyOf(c: Connection): (string, int) { (c.host, c.lun) }
  function Same(s: string): string { s }

  ghost function Uuids(os: seq<Object>): set<string> { set o | o in os :: o.uuid }
  ghost function Wwns(os: seq<Object>): set<string> { set o | o in os :: o.wwn }
  ghost function HostUuids(hs: seq<Host>): set<string> { set h | h in hs :: h.uuid }
  ghost function Connected(cs: seq<Connection>): set<string> { set c | c in cs :: c.obj }

  function Find(os: seq<Object>, uuid: string): Option<Object> {
    if os == [] then None else if os[0].uuid == uuid then Some(os[0]) else Find(os[1..], uuid)
  }

  lemma {:induction false} FindIs(os: seq<Object>, uuid: string)
    ensures Find(os, uuid).Some? ==> Find(os, uuid).value in os && Find(os, uuid).value.uuid == uuid
    ensures Find(os, uuid).None? ==> uuid !in Uuids(os)
  {
    if os != [] {
      FindIs(os[1..], uuid);
    }
  }

  lemma FindAt(os: seq<Object>, o: Object)
    requires Distinct(os, ObjectKey) && o in os
    ensures Find(os, o.uuid) == Some(o)
  {
    FindIs(os, o.uuid);
    KeyUnique(os, ObjectKey, o, Find(os, o.uuid).value);
  }

  // ----- the invariant the API keeps -----

  ghost predicate ObjectOk(o: Object) {
    && ValidUuid(o.uuid) && ValidName(o.name) && IsHex16(o.wwn)
    && o.blockSize in {512, 4096} && o.capacity >= o.blockSize
  }

  ghost predicate ObjectsOk(os: seq<Object>) {
    && (forall o | o in os :: ObjectOk(o))
    && Distinct(os, ObjectKey) && Distinct(os, NameInKind) && Distinct(os, WwnKey)
  }

  ghost predicate IqnsOk(iqns: seq<string>) {
    (forall q | q in iqns :: ValidInitiatorIqn(q)) && Distinct(iqns, Same)
  }

  ghost predicate HostsOk(hs: seq<Host>) {
    && (forall h | h in hs :: ValidUuid(h.uuid) && ValidName(h.name) && IqnsOk(h.iqns))
    && Distinct(hs, HostKey) && Distinct(hs, HostName)
    && (forall h, g, q | h in hs && g in hs && q in h.iqns && q in g.iqns :: h == g)
  }

  ghost predicate ConnsOk(cs: seq<Connection>, objects: set<string>, hosts: set<string>) {
    && (forall c | c in cs :: 0 <= c.lun <= MAX_LUN && c.obj in objects && c.host in hosts)
    && Distinct(cs, PairKey) && Distinct(cs, LunKeyOf)
  }

  ghost predicate Injective(m: map<string, int>) {
    forall u, v | u in m && v in m && m[u] == m[v] :: u == v
  }

  /** Exactly the connected objects hold an index, each its own. */
  ghost predicate ExportsOk(exports: map<string, int>, cs: seq<Connection>) {
    exports.Keys == Connected(cs) && Injective(exports) && forall u | u in exports :: exports[u] >= 0
  }

  ghost predicate DbOk(db: Db) {
    && ObjectsOk(db.objects) && HostsOk(db.hosts)
    && ConnsOk(db.conns, Uuids(db.objects), HostUuids(db.hosts))
    && ExportsOk(db.exports, db.conns)
    && ValidPortals(db.portals) && NoOverlap(db.portals)
  }

  /** Every index is below n. */
  ghost predicate Below(exports: map<string, int>, n: int) {
    forall u | u in exports :: exports[u] < n
  }
}
