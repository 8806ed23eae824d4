/** The changes the API makes to the database (appliance/hosts.go, appliance/objects.go), the
    export-index allocator, and what a start checks before it trusts the file. */
module Mutations {
  import opened LioConfig
  import opened Ensure
  import opened Diff
  import opened Database

  // ----- export indexes -----

  ghost function From(used: set<int>, i: int): set<int> { set x | x in used && x >= i }

  lemma FromNext(used: set<int>, i: int)
    requires i in used
    ensures |From(used, i + 1)| < |From(used, i)|
  {
    assert From(used, i) == From(used, i + 1) + {i};
  }

  /** The lowest index from i up that is not in use. */
  function FreeFrom(used: set<int>, i: nat): (r: nat)
    ensures r !in used && i <= r && forall j | i <= j < r :: j in used
    decreases |From(used, i)|
  {
    if i in used then
      FromNext(used, i);
      FreeFrom(used, i + 1)
    else i
  }

  function WithExport(exports: map<string, int>, u: string): map<string, int> {
    if u in exports then exports else exports[u := FreeFrom(exports.Values, 0)]
  }

  /** exportIndex (appliance/appliance.go:1469-1483). */
  method ExportIndex(exports: map<string, int>, u: string) returns (idx: int, next: map<string, int>)
    ensures next == WithExport(exports, u) && next[u] == idx
  {
    if u in exports {
      return exports[u], exports;
    }
    var used := exports.Values;
    var i: nat := 0;
    while i in used
      invariant FreeFrom(used, 0) == FreeFrom(used, i)
      decreases |From(used, i)|
    {
      FromNext(used, i);
      i := i + 1;
    }
    return i, exports[u := i];
  }

  ghost function UpTo(n: nat): (r: set<int>)
    ensures forall i :: i in r <==> 0 <= i < n
    ensures |r| == n
  {
    if n == 0 then {} else UpTo(n - 1) + {n - 1}
  }

  lemma {:induction false} ValuesCount(m: map<string, int>)
    ensures |m.Values| <= |m|
  {
    if m != map[] {
      var u :| u in m;
      var rest := m - {u};
      ValuesCount(rest);
      forall x | x in m.Values ensures x in rest.Values + {m[u]} {
        var k :| k in m && m[k] == x;
        assert k != u ==> rest[k] == x;
      }
      SubsetCardinality(m.Values, rest.Values + {m[u]});
    }
  }

  /** The lowest free index is at most the number of indexes in use. */
  lemma FreeAtMostUsed(exports: map<string, int>)
    ensures FreeFrom(exports.Values, 0) <= |exports|
  {
    var n := FreeFrom(exports.Values, 0);
    SubsetCardinality(UpTo(n), exports.Values);
    ValuesCount(exports);
  }

  // ----- filtering in place -----

  function Keep<T>(s: seq<T>, keep: T -> bool): seq<T> {
    if s == [] then []
    else Keep(s[..|s| - 1], keep) + (if keep(s[|s| - 1]) then [s[|s| - 1]] else [])
  }

  /** kept := s[:0]; for … append: the loop behind every removal. */
  method Filter<T>(s: seq<T>, keep: T -> bool) returns (kept: seq<T>)
    ensures kept == Keep(s, keep)
  {
    kept := [];
    for i := 0 to |s|
      invariant kept == Keep(s[..i], keep)
    {
      assert s[..i + 1][..i] == s[..i];
      if keep(s[i]) {
        kept := kept + [s[i]];
      }
    }
    assert s[..|s|] == s;
  }

  lemma {:induction false} KeepIs<T>(s: seq<T>, keep: T -> bool, x: T)
    ensures x in Keep(s, keep) <==> x in s && keep(x)
  {
    if s != [] {
      assert s == s[..|s| - 1] + [s[|s| - 1]];
      KeepIs(s[..|s| - 1], keep, x);
    }
  }

  lemma {:induction false} KeepDistinct<T, K>(s: seq<T>, keep: T -> bool, key: T -> K)
    requires Distinct(s, key)
    ensures Distinct(Keep(s, keep), key)
  {
    if s != [] {
      var init, last := s[..|s| - 1], s[|s| - 1];
      KeepDistinct(init, keep, key);
      var kept := Keep(init, keep);
      forall j | 0 <= j < |kept| ensures key(kept[j]) != key(last) {
        var x := kept[j];
        KeepIs(init, keep, x);
        var i :| 0 <= i < |init| && init[i] == x;
        assert key(s[i]) != key(s[|s| - 1]);
      }
    }
  }

  lemma AppendDistinct<T, K>(s: seq<T>, x: T, key: T -> K)
    requires Distinct(s, key) && forall y | y in s :: key(y) != key(x)
    ensures Distinct(s + [x], key)
  {
    forall i, j | 0 <= i < j < |s + [x]| ensures key((s + [x])[i]) != key((s + [x])[j]) {
      if j == |s| {
        assert s[i] in s;
      }
    }
  }

  // ----- objects -----

  function AddObject(db: Db, o: Object): Db { db.(objects := db.objects + [o]) }

  predicate NameFree(os: seq<Object>, kind: Kind, name: string) {
    forall o | o in os :: !(o.kind == kind && o.name == name)
  }

  lemma AddObjectOk(db: Db, o: Object)
    requires DbOk(db) && ObjectOk(o) && o.uuid !in Uuids(db.objects) && NameFree(db.objects, o.kind, o.name)
    requires o.wwn !in Wwns(db.objects)
    ensures DbOk(AddObject(db, o))
  {
    AppendDistinct(db.objects, o, ObjectKey);
    AppendDistinct(db.objects, o, NameInKind);
    AppendDistinct(db.objects, o, WwnKey);
    assert forall x | x in db.objects + [o] :: x in db.objects || x == o;
    assert Uuids(db.objects) <= Uuids(AddObject(db, o).objects);
  }

  predicate NotUuid(u: string, o: Object) { o.uuid != u }

  /** deleteObject, and the export entry with it (appliance/objects.go:385-409). */
  function DropObject(db: Db, u: string): Db {
    db.(objects := Keep(db.objects, o => NotUuid(u, o)), exports := db.exports - {u})
  }

  lemma DropObjectOk(db: Db, u: string)
    requires DbOk(db) && u !in Connected(db.conns)
    ensures DbOk(DropObject(db, u)) && DropObject(db, u).exports == db.exports
    ensures forall o :: o in DropObject(db, u).objects <==> o in db.objects && o.uuid != u
  {
    var keep := o => NotUuid(u, o);
    forall o ensures o in Keep(db.objects, keep) <==> o in db.objects && o.uuid != u {
      KeepIs(db.objects, keep, o);
    }
    KeepDistinct(db.objects, keep, ObjectKey);
    KeepDistinct(db.objects, keep, NameInKind);
    KeepDistinct(db.objects, keep, WwnKey);
    assert db.exports - {u} == db.exports;
    forall c | c in db.conns ensures c.obj in Uuids(Keep(db.objects, keep)) {
      assert c.obj in Uuids(db.objects);
      var o :| o in db.objects && o.uuid == c.obj;
      assert o in Keep(db.objects, keep);
    }
  }

  /** The record of one object is rewritten through its pointer. */
  function Rewrite(os: seq<Object>, u: string, now: Object): seq<Object> {
    seq(|os|, i requires 0 <= i < |os| => if os[i].uuid == u then now else os[i])
  }

  lemma RewriteKeys(os: seq<Object>, o: Object, now: Object)
    requires ObjectsOk(os) && o in os && now.uuid == o.uuid && now.kind == o.kind && now.wwn == o.wwn
    requires now.name == o.name || NameFree(os, o.kind, now.name)
    ensures Distinct(Rewrite(os, o.uuid, now), ObjectKey) && Distinct(Rewrite(os, o.uuid, now), NameInKind)
    ensures Distinct(Rewrite(os, o.uuid, now), WwnKey)
  {
    var next := Rewrite(os, o.uuid, now);
    var x :| 0 <= x < |os| && os[x] == o;
    forall i | 0 <= i < |os| ensures next[i] == if i == x then now else os[i] {
      if i != x {
        assert ObjectKey(os[if i < x then i else x]) != ObjectKey(os[if i < x then x else i]);
      }
    }
    forall i, j | 0 <= i < j < |next|
      ensures ObjectKey(next[i]) != ObjectKey(next[j]) && NameInKind(next[i]) != NameInKind(next[j])
      ensures WwnKey(next[i]) != WwnKey(next[j])
    {
      assert ObjectKey(os[i]) != ObjectKey(os[j]) && NameInKind(os[i]) != NameInKind(os[j]);
      assert WwnKey(os[i]) != WwnKey(os[j]);
      assert os[i] in os && os[j] in os;
    }
  }

  lemma RewriteUuids(os: seq<Object>, u: string, now: Object)
    requires now.uuid == u
    ensures Uuids(Rewrite(os, u, now)) == Uuids(os)
    ensures forall y | y in Rewrite(os, u, now) :: y in os || y == now
  {
    var next := Rewrite(os, u, now);
    forall y | y in next ensures y.uuid in Uuids(os) && (y in os || y == now) {
      var i :| 0 <= i < |next| && next[i] == y;
      assert os[i] in os;
    }
    forall y | y in os ensures y.uuid in Uuids(next) {
      var i :| 0 <= i < |os| && os[i] == y;
      assert next[i] in next;
    }
  }

  lemma RewriteOk(db: Db, o: Object, now: Object)
    requires DbOk(db) && o in db.objects && ObjectOk(now) && now.uuid == o.uuid && now.kind == o.kind && now.wwn == o.wwn
    requires now.name == o.name || NameFree(db.objects, o.kind, now.name)
    ensures DbOk(db.(objects := Rewrite(db.objects, o.uuid, now)))
  {
    RewriteKeys(db.objects, o, now);
    RewriteUuids(db.objects, o.uuid, now);
  }

  lemma {:induction false} RewriteFind(os: seq<Object>, u: string, now: Object, v: string)
    requires now.uuid == u
    ensures Find(Rewrite(os, u, now), v) == if v == u && Find(os, u).Some? then Some(now) else Find(os, v)
  {
    if os != [] {
      assert Rewrite(os, u, now)[1..] == Rewrite(os[1..], u, now);
      RewriteFind(os[1..], u, now, v);
    }
  }

  // ----- hosts -----

  function AddHost(db: Db, h: Host): Db { db.(hosts := db.hosts + [h]) }

  predicate HostNameFree(hs: seq<Host>, name: string) {
    forall h | h in hs :: h.name != name
  }

  /** No host but except owns one of iqns. */
  predicate Unowned(hs: seq<Host>, iqns: seq<string>, except: string) {
    forall h, q | h in hs && q in iqns :: h.uuid != except ==> q !in h.iqns
  }

  /** iqnOwner (appliance/appliance.go:1455-1465). */
  method IqnOwner(hs: seq<Host>, iqn: string, except: string) returns (owner: Option<string>)
    ensures owner.None? <==> forall h | h in hs :: h.uuid != except ==> iqn !in h.iqns
  {
    for i := 0 to |hs|
      invariant forall j | 0 <= j < i :: hs[j].uuid != except ==> iqn !in hs[j].iqns
    {
      if hs[i].uuid != except && iqn in hs[i].iqns {
        assert hs[i] in hs;
        return Some(hs[i].uuid);
      }
    }
    return None;
  }

  /** checkIQNs (appliance/hosts.go:73-91): the error paths are one refusal here. */
  method CheckIqns(hs: seq<Host>, iqns: seq<string>, except: string) returns (ok: bool)
    ensures ok <==> IqnsOk(iqns) && Unowned(hs, iqns, except)
  {
    var seen: set<string> := {};
    for i := 0 to |iqns|
      invariant seen == set q | q in iqns[..i]
      invariant IqnsOk(iqns[..i]) && Unowned(hs, iqns[..i], except)
    {
      assert iqns[..i + 1] == iqns[..i] + [iqns[i]];
      assert iqns[i] in iqns;
      if !ValidInitiatorIqn(iqns[i]) {
        return false;
      }
      if iqns[i] in seen {
        var j :| 0 <= j < i && iqns[j] == iqns[i];
        assert Same(iqns[j]) == Same(iqns[i]);
        return false;
      }
      seen := seen + {iqns[i]};
      var owner := IqnOwner(hs, iqns[i], except);
      if owner.Some? {
        return false;
      }
    }
    assert iqns[..|iqns|] == iqns;
    return true;
  }

  lemma AddHostOk(db: Db, h: Host)
    requires DbOk(db) && ValidUuid(h.uuid) && ValidName(h.name) && h.uuid !in HostUuids(db.hosts) && HostNameFree(db.hosts, h.name)
    requires IqnsOk(h.iqns) && Unowned(db.hosts, h.iqns, "")
    ensures DbOk(AddHost(db, h))
  {
    AppendDistinct(db.hosts, h, HostKey);
    AppendDistinct(db.hosts, h, HostName);
    assert forall x | x in db.hosts + [h] :: x in db.hosts || x == h;
    forall x | x in db.hosts ensures x.uuid != "" {
      assert ValidUuid(x.uuid);
    }
    assert HostsOk(db.hosts + [h]);
    assert HostUuids(db.hosts) <= HostUuids(AddHost(db, h).hosts);
  }

  predicate NotHost(u: string, h: Host) { h.uuid != u }

  function DropHost(db: Db, u: string): Db { db.(hosts := Keep(db.hosts, h => NotHost(u, h))) }

  lemma DropHostOk(db: Db, u: string)
    requires DbOk(db) && forall c | c in db.conns :: c.host != u
    ensures DbOk(DropHost(db, u))
  {
    var keep := h => NotHost(u, h);
    forall h ensures h in Keep(db.hosts, keep) <==> h in db.hosts && h.uuid != u {
      KeepIs(db.hosts, keep, h);
    }
    KeepDistinct(db.hosts, keep, HostKey);
    KeepDistinct(db.hosts, keep, HostName);
    forall c | c in db.conns ensures c.host in HostUuids(Keep(db.hosts, keep)) {
      assert c.host in HostUuids(db.hosts);
      var h :| h in db.hosts && h.uuid == c.host;
      assert h in Keep(db.hosts, keep);
    }
  }

  function Rebind(hs: seq<Host>, u: string, iqns: seq<string>): seq<Host> {
    seq(|hs|, i requires 0 <= i < |hs| => if hs[i].uuid == u then hs[i].(iqns := iqns) else hs[i])
  }

  lemma RebindHosts(hs: seq<Host>, u: string, iqns: seq<string>)
    requires HostsOk(hs) && IqnsOk(iqns) && Unowned(hs, iqns, u)
    ensures HostsOk(Rebind(hs, u, iqns)) && HostUuids(Rebind(hs, u, iqns)) == HostUuids(hs)
  {
    RebindFrom(hs, u, iqns);
    RebindKeys(hs, u, iqns);
    RebindApart(hs, u, iqns);
  }

  /** Each host is an old one, the one named with its new initiators, and none is lost. */
  lemma RebindFrom(hs: seq<Host>, u: string, iqns: seq<string>)
    ensures forall y | y in Rebind(hs, u, iqns) :: exists x :: x in hs && (y == x || (x.uuid == u && y == x.(iqns := iqns)))
    ensures HostUuids(Rebind(hs, u, iqns)) == HostUuids(hs)
  {
    var next := Rebind(hs, u, iqns);
    forall y | y in next ensures exists x :: x in hs && (y == x || (x.uuid == u && y == x.(iqns := iqns))) {
      var i :| 0 <= i < |next| && next[i] == y;
      assert hs[i] in hs;
    }
    forall y | y in hs ensures y.uuid in HostUuids(next) {
      var i :| 0 <= i < |hs| && hs[i] == y;
      assert next[i] in next;
    }
  }

  lemma RebindKeys(hs: seq<Host>, u: string, iqns: seq<string>)
    requires Distinct(hs, HostKey) && Distinct(hs, HostName)
    ensures Distinct(Rebind(hs, u, iqns), HostKey) && Distinct(Rebind(hs, u, iqns), HostName)
  {
    var next := Rebind(hs, u, iqns);
    forall i, j | 0 <= i < j < |next| ensures HostKey(next[i]) != HostKey(next[j]) && HostName(next[i]) != HostName(next[j]) {
      assert HostKey(hs[i]) != HostKey(hs[j]) && HostName(hs[i]) != HostName(hs[j]);
    }
  }

  lemma RebindApart(hs: seq<Host>, u: string, iqns: seq<string>)
    requires HostsOk(hs) && Unowned(hs, iqns, u)
    ensures var next := Rebind(hs, u, iqns);
            forall h, g, q | h in next && g in next && q in h.iqns && q in g.iqns :: h == g
  {
    var next := Rebind(hs, u, iqns);
    forall h, g, q | h in next && g in next && q in h.iqns && q in g.iqns ensures h == g {
      var i :| 0 <= i < |next| && next[i] == h;
      var j :| 0 <= j < |next| && next[j] == g;
      assert hs[i] in hs && hs[j] in hs;
      if hs[i].uuid == u && hs[j].uuid == u {
        KeyUnique(hs, HostKey, hs[i], hs[j]);
      }
    }
  }

  /** The bindings of one host are replaced (appliance/hosts.go:230-236). */
  function SetIqns(db: Db, u: string, iqns: seq<string>): Db { db.(hosts := Rebind(db.hosts, u, iqns)) }

  lemma SetIqnsOk(db: Db, u: string, iqns: seq<string>)
    requires DbOk(db) && IqnsOk(iqns) && Unowned(db.hosts, iqns, u)
    ensures DbOk(SetIqns(db, u, iqns))
  {
    RebindHosts(db.hosts, u, iqns);
  }

  // ----- connections -----

  function AddConn(db: Db, c: Connection): Db {
    db.(exports := WithExport(db.exports, c.obj), conns := db.conns + [c])
  }

  /** Neither the pair nor the LUN is taken (appliance/hosts.go:330-347). */
  predicate ConnFree(cs: seq<Connection>, c: Connection) {
    forall x | x in cs :: !(x.host == c.host && (x.obj == c.obj || x.lun == c.lun))
  }

  /** A newly allocated index is one no other object has. */
  lemma ExportAdded(exports: map<string, int>, u: string)
    requires Injective(exports) && forall v | v in exports :: exports[v] >= 0
    ensures Injective(WithExport(exports, u)) && forall v | v in WithExport(exports, u) :: WithExport(exports, u)[v] >= 0
    ensures WithExport(exports, u).Keys == exports.Keys + {u}
    ensures forall v | v in exports :: WithExport(exports, u)[v] == exports[v]
    ensures forall n: nat | |WithExport(exports, u)| <= n && Below(exports, n) :: Below(WithExport(exports, u), n)
  {
    FreeAtMostUsed(exports);
    if u !in exports {
      assert WithExport(exports, u) - {u} == exports;
      assert WithExport(exports, u).Keys == exports.Keys + {u};
      assert |WithExport(exports, u).Keys| == |exports.Keys| + 1;
      forall v | v in exports ensures exports[v] != FreeFrom(exports.Values, 0) {
        assert exports[v] in exports.Values;
      }
    }
  }

  lemma AddConnOk(db: Db, c: Connection)
    requires DbOk(db) && 0 <= c.lun <= MAX_LUN && c.obj in Uuids(db.objects) && c.host in HostUuids(db.hosts)
    requires ConnFree(db.conns, c)
    ensures DbOk(AddConn(db, c))
    ensures forall u | u in db.exports :: u in AddConn(db, c).exports && AddConn(db, c).exports[u] == db.exports[u]
    ensures forall n: nat | |AddConn(db, c).exports| <= n && Below(db.exports, n) :: Below(AddConn(db, c).exports, n)
  {
    ExportAdded(db.exports, c.obj);
    AddConnsOk(db.conns, c, Uuids(db.objects), HostUuids(db.hosts));
  }

  lemma AddConnsOk(cs: seq<Connection>, c: Connection, objects: set<string>, hosts: set<string>)
    requires ConnsOk(cs, objects, hosts) && ConnFree(cs, c)
    requires 0 <= c.lun <= MAX_LUN && c.obj in objects && c.host in hosts
    ensures ConnsOk(cs + [c], objects, hosts) && Connected(cs + [c]) == Connected(cs) + {c.obj}
  {
    AppendDistinct(cs, c, PairKey);
    AppendDistinct(cs, c, LunKeyOf);
    assert c in cs + [c];
  }

  predicate NotPair(u: string, h: string, c: Connection) { !(c.obj == u && c.host == h) }

  /** pruneExports (appliance/appliance.go:1486-1492): indexes of objects no longer connected go. */
  function PruneExports(exports: map<string, int>, cs: seq<Connection>): map<string, int> {
    map u | u in exports && (exists c | c in cs :: c.obj == u) :: exports[u]
  }

  function DropConn(db: Db, u: string, h: string): Db {
    var cs := Keep(db.conns, c => NotPair(u, h, c));
    db.(conns := cs, exports := PruneExports(db.exports, cs))
  }

  lemma DropConnOk(db: Db, u: string, h: string)
    requires DbOk(db)
    ensures DbOk(DropConn(db, u, h))
    ensures forall v | v in DropConn(db, u, h).exports :: v in db.exports && DropConn(db, u, h).exports[v] == db.exports[v]
  {
    var keep := c => NotPair(u, h, c);
    forall c ensures c in Keep(db.conns, keep) <==> c in db.conns && NotPair(u, h, c) {
      KeepIs(db.conns, keep, c);
    }
    KeepDistinct(db.conns, keep, PairKey);
    KeepDistinct(db.conns, keep, LunKeyOf);
  }

  // ----- validateLoaded -----

  ghost predicate LoadedObjects(os: seq<Object>) {
    && (forall o | o in os :: ValidUuid(o.uuid) && ValidName(o.name))
    && Distinct(os, ObjectKey) && Distinct(os, NameInKind)
  }

  ghost predicate LoadedExports(exports: map<string, int>) {
    && (forall u | u in exports :: ValidUuid(u) && 0 <= exports[u] <= MAX_LUN)
    && Injective(exports)
  }

  /** What a start insists on before it trusts the file. */
  ghost predicate Loadable(db: Db) {
    && LoadedObjects(db.objects) && HostsOk(db.hosts)
    && ConnsOk(db.conns, Uuids(db.objects), HostUuids(db.hosts))
    && LoadedExports(db.exports)
  }

  /** Every database the API can reach is accepted at the next start, as long as no more than
      16384 objects were ever exported at once. */
  lemma ReachableIsLoadable(db: Db)
    requires DbOk(db) && Below(db.exports, MAX_LUN + 1)
    ensures Loadable(db)
  {
    forall u | u in db.exports ensures ValidUuid(u) {
      assert u in Connected(db.conns);
      var c :| c in db.conns && c.obj == u;
      assert c.obj in Uuids(db.objects);
    }
  }

  method CheckObjects(os: seq<Object>) returns (ok: bool, uuids: set<string>)
    ensures ok <==> LoadedObjects(os)
    ensures ok ==> uuids == Uuids(os)
  {
    uuids := {};
    var names: set<(Kind, string)> := {};
    for i := 0 to |os|
      invariant uuids == Uuids(os[..i]) && names == set o | o in os[..i] :: NameInKind(o)
      invariant LoadedObjects(os[..i])
    {
      var o := os[i];
      assert os[..i + 1] == os[..i] + [o];
      if !ValidUuid(o.uuid) || !ValidName(o.name) {
        assert o in os;
        return false, {};
      }
      if o.uuid in uuids {
        Repeated(os, i, ObjectKey);
        return false, {};
      }
      if NameInKind(o) in names {
        Repeated(os, i, NameInKind);
        return false, {};
      }
      uuids, names := uuids + {o.uuid}, names + {NameInKind(o)};
    }
    assert os[..|os|] == os;
    ok := true;
  }

  lemma Repeated<T, K>(s: seq<T>, i: nat, key: T -> K)
    requires i < |s| && exists x :: x in s[..i] && key(x) == key(s[i])
    ensures !Distinct(s, key)
  {
    var x :| x in s[..i] && key(x) == key(s[i]);
    var j :| 0 <= j < i && s[j] == x;
  }

  method CheckConns(cs: seq<Connection>, objects: set<string>, hosts: set<string>) returns (ok: bool)
    ensures ok <==> ConnsOk(cs, objects, hosts)
  {
    var pairs: set<(string, string)> := {};
    var luns: set<(string, int)> := {};
    for i := 0 to |cs|
      invariant pairs == (set c | c in cs[..i] :: PairKey(c)) && luns == set c | c in cs[..i] :: LunKeyOf(c)
      invariant ConnsOk(cs[..i], objects, hosts)
    {
      var c := cs[i];
      assert cs[..i + 1] == cs[..i] + [c];
      if c.lun < 0 || c.lun > MAX_LUN || c.obj !in objects || c.host !in hosts {
        assert c in cs;
        return false;
      }
      if PairKey(c) in pairs {
        Repeated(cs, i, PairKey);
        return false;
      }
      if LunKeyOf(c) in luns {
        Repeated(cs, i, LunKeyOf);
        return false;
      }
      pairs, luns := pairs + {PairKey(c)}, luns + {LunKeyOf(c)};
    }
    assert cs[..|cs|] == cs;
    return true;
  }

  method CheckExports(exports: map<string, int>) returns (ok: bool)
    ensures ok <==> LoadedExports(exports)
  {
    var used: map<int, string> := map[];
    var rest := exports.Keys;
    while rest != {}
      invariant rest <= exports.Keys
      invariant forall u | u in exports && u !in rest :: ValidUuid(u) && 0 <= exports[u] <= MAX_LUN
      invariant forall u | u in exports && u !in rest :: exports[u] in used && used[exports[u]] == u
      invariant forall i | i in used :: used[i] in exports && used[i] !in rest && exports[used[i]] == i
      decreases |rest|
    {
      var u :| u in rest;
      if !ValidUuid(u) || exports[u] < 0 || exports[u] > MAX_LUN || exports[u] in used {
        return false;
      }
      used, rest := used[exports[u] := u], rest - {u};
    }
    return true;
  }

  ghost function IqnSet(hs: seq<Host>): set<string> { set h, q | h in hs && q in h.iqns :: q }

  /** The initiators of one host: each valid, and none seen before (appliance/appliance.go:789-798). */
  method ClaimIqns(owners: map<string, string>, h: Host) returns (ok: bool, next: map<string, string>)
    ensures ok <==> IqnsOk(h.iqns) && forall q | q in h.iqns :: q !in owners
    ensures ok ==> next.Keys == owners.Keys + (set q | q in h.iqns)
  {
    next := owners;
    for i := 0 to |h.iqns|
      invariant IqnsOk(h.iqns[..i]) && forall q | q in h.iqns[..i] :: q !in owners
      invariant next.Keys == owners.Keys + (set q | q in h.iqns[..i])
    {
      var q := h.iqns[i];
      assert h.iqns[..i + 1] == h.iqns[..i] + [q];
      if !ValidInitiatorIqn(q) || q in next {
        assert q in h.iqns;
        if q in h.iqns[..i] {
          assert Same(q) == q;
          Repeated(h.iqns, i, Same);
        }
        return false, owners;
      }
      next := next[q := h.uuid];
    }
    assert h.iqns[..|h.iqns|] == h.iqns;
    ok := true;
  }

  lemma HostsNext(hs: seq<Host>, i: nat)
    requires i < |hs| && HostsOk(hs[..i])
    requires ValidUuid(hs[i].uuid) && ValidName(hs[i].name)
    requires hs[i].uuid !in HostUuids(hs[..i]) && HostNameFree(hs[..i], hs[i].name)
    ensures HostsOk(hs[..i + 1]) <==> IqnsOk(hs[i].iqns) && forall q | q in hs[i].iqns :: q !in IqnSet(hs[..i])
    ensures HostUuids(hs[..i + 1]) == HostUuids(hs[..i]) + {hs[i].uuid}
    ensures IqnSet(hs[..i + 1]) == IqnSet(hs[..i]) + (set q | q in hs[i].iqns)
    ensures forall h :: h in hs[..i + 1] <==> h in hs[..i] || h == hs[i]
  {
    var now, h := hs[..i], hs[i];
    assert hs[..i + 1] == now + [h];
    AppendDistinct(now, h, HostKey);
    AppendDistinct(now, h, HostName);
    assert h in hs[..i + 1];
    forall g | g in now ensures g in hs[..i + 1] && g != h {
      assert g.uuid in HostUuids(now);
    }
  }

  lemma HostsPrefix(hs: seq<Host>, i: nat)
    requires i <= |hs| && HostsOk(hs)
    ensures HostsOk(hs[..i])
  {
  }

  /** The host half of validateLoaded (appliance/appliance.go:761-799). */
  method CheckHosts(hs: seq<Host>) returns (ok: bool, uuids: set<string>)
    ensures ok <==> HostsOk(hs)
    ensures ok ==> uuids == HostUuids(hs)
  {
    uuids := {};
    var names: set<string> := {};
    var owners: map<string, string> := map[];
    for i := 0 to |hs|
      invariant uuids == HostUuids(hs[..i]) && names == set h | h in hs[..i] :: h.name
      invariant owners.Keys == IqnSet(hs[..i]) && HostsOk(hs[..i])
    {
      var h := hs[i];
      if !ValidUuid(h.uuid) || !ValidName(h.name) {
        assert h in hs;
        return false, {};
      }
      if h.uuid in uuids {
        Repeated(hs, i, HostKey);
        return false, {};
      }
      if h.name in names {
        Repeated(hs, i, HostName);
        return false, {};
      }
      HostsNext(hs, i);
      var claimed, next := ClaimIqns(owners, h);
      if !claimed {
        if HostsOk(hs) {
          HostsPrefix(hs, i + 1);
        }
        return false, {};
      }
      owners, uuids, names := next, uuids + {h.uuid}, names + {h.name};
    }
    assert hs[..|hs|] == hs;
    ok := true;
  }

  /** validateLoaded (appliance/appliance.go:730-848). */
  method ValidateLoaded(db: Db) returns (ok: bool)
    ensures ok <==> Loadable(db)
  {
    var objects, hosts;
    ok, objects := CheckObjects(db.objects);
    if !ok { return; }
    ok, hosts := CheckHosts(db.hosts);
    if !ok { return; }
    ok := CheckConns(db.conns, objects, hosts);
    if !ok { return; }
    ok := CheckExports(db.exports);
  }
}
