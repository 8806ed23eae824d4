/** Why a rollback is exact although mutations filter slices in place and edit records through
    pointers (appliance/appliance.go:968-989, 1039-1055; appliance/hosts.go:262-268, 406-414):
    the snapshot shares no memory with the state it was taken of. */
module Rollback {
  import opened LioConfig
  import opened Database
  import opened Mutations
  import opened Api

  /** One record behind a pointer. */
  class Rec<T> {
    var v: T
    constructor (x: T)
      ensures v == x
    {
      v := x;
    }
  }

  /** The indexes of the first i elements that keep wants, in order. */
  function Kept<T>(was: seq<T>, i: nat, keep: T -> bool): seq<nat>
    requires i <= |was|
  {
    if i == 0 then [] else Kept(was, i - 1, keep) + (if keep(was[i - 1]) then [i - 1] else [])
  }

  lemma {:induction false} KeptAre<T>(was: seq<T>, i: nat, keep: T -> bool)
    requires i <= |was|
    ensures |Kept(was, i, keep)| <= i && (forall j | 0 <= j < |Kept(was, i, keep)| :: Kept(was, i, keep)[j] < i)
    ensures |Keep(was[..i], keep)| == |Kept(was, i, keep)|
    ensures forall j | 0 <= j < |Kept(was, i, keep)| :: was[Kept(was, i, keep)[j]] == Keep(was[..i], keep)[j]
  {
    if i > 0 {
      KeptAre(was, i - 1, keep);
      assert was[..i][..i - 1] == was[..i - 1];
    }
  }

  /** The pointers at those indexes. */
  ghost function Slid<T, R>(ptrs: seq<R>, was: seq<T>, i: nat, keep: T -> bool): seq<R>
    requires i <= |was| && i <= |ptrs|
  {
    if i == 0 then [] else Slid(ptrs, was, i - 1, keep) + (if keep(was[i - 1]) then [ptrs[i - 1]] else [])
  }

  lemma {:induction false} SlidAre<T, R>(ptrs: seq<R>, was: seq<T>, i: nat, keep: T -> bool)
    requires i <= |was| && i <= |ptrs|
    ensures |Slid(ptrs, was, i, keep)| == |Kept(was, i, keep)|
    ensures forall j | 0 <= j < |Kept(was, i, keep)| ::
              Kept(was, i, keep)[j] < i && Slid(ptrs, was, i, keep)[j] == ptrs[Kept(was, i, keep)[j]]
  {
    if i > 0 {
      SlidAre(ptrs, was, i - 1, keep);
    }
  }

  /** Sliding keeps pointers apart and among the old ones, and what they point at in step with Keep. */
  lemma SlidOk<T, R>(ptrs: seq<R>, was: seq<T>, keep: T -> bool)
    requires |was| <= |ptrs| && forall i, j | 0 <= i < j < |was| :: ptrs[i] != ptrs[j]
    ensures var s := Slid(ptrs, was, |was|, keep);
            && |s| == |Keep(was, keep)| <= |was|
            && (forall j | 0 <= j < |s| :: exists i :: 0 <= i < |was| && s[j] == ptrs[i] && Keep(was, keep)[j] == was[i])
            && (forall j, m | 0 <= j < m < |s| :: s[j] != s[m])
  {
    var s, src := Slid(ptrs, was, |was|, keep), Kept(was, |was|, keep);
    SlidAre(ptrs, was, |was|, keep);
    KeptAre(was, |was|, keep);
    assert was[..|was|] == was;
    forall j, m | 0 <= j < m < |s| ensures s[j] != s[m] {
      KeptApart(was, |was|, keep, j, m);
      assert s[j] == ptrs[src[j]] && s[m] == ptrs[src[m]];
      assert ptrs[if src[j] < src[m] then src[j] else src[m]] != ptrs[if src[j] < src[m] then src[m] else src[j]];
    }
    forall j | 0 <= j < |s| ensures exists i :: 0 <= i < |was| && s[j] == ptrs[i] && Keep(was, keep)[j] == was[i] {
      assert 0 <= src[j] < |was| && s[j] == ptrs[src[j]];
    }
  }

  lemma {:induction false} KeptApart<T>(was: seq<T>, i: nat, keep: T -> bool, j: nat, m: nat)
    requires i <= |was| && j < m < |Kept(was, i, keep)|
    ensures Kept(was, i, keep)[j] != Kept(was, i, keep)[m]
  {
    KeptAre(was, i - 1, keep);
    if m < |Kept(was, i - 1, keep)| {
      KeptApart(was, i - 1, keep, j, m);
    }
  }

  /** A slice of record pointers: a backing array, of which the first len entries are in use. */
  class Table<T(!new)> {
    var back: array<Rec?<T>>
    var len: nat
    /** everything a mutation of the slice may write */
    ghost var Repr: set<object>

    ghost predicate Valid()
      reads this, Repr
    {
      && this in Repr && back in Repr && len <= back.Length
      && (forall i | 0 <= i < len :: back[i] != null && back[i] in Repr)
      && (forall i, j | 0 <= i < j < len :: back[i] != back[j])
    }

    ghost function View(): seq<T>
      reads this, Repr
      requires Valid()
    {
      seq(len, i requires 0 <= i < len reads this, Repr requires Valid() => back[i].v)
    }

    /** A new slice of new records. */
    constructor Copy(t: Table<T>)
      requires t.Valid()
      ensures Valid() && fresh(Repr) && View() == old(t.View())
    {
      var n := t.len;
      var a := new Rec?<T>[n];
      ghost var repr: set<object> := {a};
      new;
      repr := repr + {this};
      for i := 0 to n
        invariant a.Length == n && fresh(repr) && a in repr && this in repr && t.Valid() && t.len == n && t.View() == old(t.View())
        invariant forall j | 0 <= j < i :: a[j] != null && a[j] in repr && a[j].v == t.View()[j]
        invariant forall j, k | 0 <= j < k < i :: a[j] != a[k]
        modifies a
      {
        var r := new Rec(t.back[i].v);
        a[i] := r;
        repr := repr + {r};
      }
      back, len, Repr := a, n, repr;
    }

    /** kept := s[:0]; append: the surviving pointers slide down inside the same backing array. */
    method FilterInPlace(keep: T -> bool)
      requires Valid()
      modifies this, back
      ensures Valid() && Repr == old(Repr)
      ensures View() == Keep(old(View()), keep)
    {
      ghost var was, ptrs := View(), back[..];
      SlidOk(ptrs, was, keep);
      var k := Slide(keep, was, ptrs);
      ghost var s := Slid(ptrs, was, len, keep);
      forall j | 0 <= j < k ensures back[j] == s[j] && back[j] != null && back[j] in Repr && back[j].v == Keep(was, keep)[j] {
        assert back[j] == back[..k][j];
        ghost var i :| 0 <= i < |was| && s[j] == ptrs[i] && Keep(was, keep)[j] == was[i];
      }
      len := k;
    }

    /** The loop: the survivors slide down, in order. */
    method Slide(keep: T -> bool, ghost was: seq<T>, ghost ptrs: seq<Rec?<T>>) returns (k: nat)
      requires Valid() && was == View() && ptrs == back[..]
      modifies back
      ensures k <= len && back[..k] == Slid(ptrs, was, len, keep)
    {
      k := 0;
      ghost var moved := [];
      for i := 0 to len
        invariant k == |moved| <= i && moved == Slid(ptrs, was, i, keep)
        invariant forall j | 0 <= j < k :: back[j] == moved[j]
        invariant forall j | k <= j < back.Length :: back[j] == ptrs[j]
      {
        assert back[i] == ptrs[i] && back[i].v == was[i];
        if keep(back[i].v) {
          back[k] := back[i];
          k, moved := k + 1, moved + [ptrs[i]];
        }
      }
    }

    /** t.Field = x through the pointer. */
    method Edit(i: nat, x: T)
      requires Valid() && i < len
      modifies back[i]
      ensures Valid() && Repr == old(Repr) && View() == old(View())[i := x]
    {
      back[i].v := x;
    }

    /** append: into spare capacity if there is some, else into a new backing array. */
    method Append(x: T)
      requires Valid()
      modifies this, back
      ensures Valid() && fresh(Repr - old(Repr)) && View() == old(View()) + [x]
    {
      if len == back.Length {
        Grow();
      }
      var r := new Rec(x);
      back[len] := r;
      len, Repr := len + 1, Repr + {r};
    }

    /** A larger backing array with the same pointers. */
    method Grow()
      requires Valid()
      modifies this
      ensures Valid() && fresh(back) && back.Length > len && Repr == old(Repr) + {back} && View() == old(View())
    {
      var more: int := *;
      more := if more < 0 then 0 else more;
      var a := new Rec?<T>[len + 1 + more];
      for i := 0 to len
        invariant unchanged(this) && unchanged(back) && fresh(a) && a.Length == len + 1 + more
        invariant forall j | 0 <= j < i :: a[j] == back[j]
        modifies a
      {
        a[i] := back[i];
      }
      back, Repr := a, Repr + {a};
    }
  }

  /** A Go map: one more thing behind a pointer. */
  class Indexes {
    var m: map<string, int>
    constructor (x: map<string, int>)
      ensures m == x
    {
      m := x;
    }
  }

  datatype Edit =
    | DropObjects(u: string) | EditObject(i: nat, o: Object) | PushObject(o: Object)
    | DropHosts(u: string) | EditHost(i: nat, h: Host) | PushHost(h: Host)
    | DropConns(u: string, host: string) | PushConn(c: Connection)
    | SetExport(u: string, n: int) | DelExport(u: string)
  {
    predicate OnObjects() { DropObjects? || EditObject? || PushObject? }
    predicate OnHosts() { DropHosts? || EditHost? || PushHost? }
    predicate OnConns() { DropConns? || PushConn? }
  }

  function Edited(db: Db, e: Edit): Db {
    match e
    case DropObjects(u) => db.(objects := Keep(db.objects, o => NotUuid(u, o)))
    case EditObject(i, o) => if i < |db.objects| then db.(objects := db.objects[i := o]) else db
    case PushObject(o) => db.(objects := db.objects + [o])
    case DropHosts(u) => db.(hosts := Keep(db.hosts, h => NotHost(u, h)))
    case EditHost(i, h) => if i < |db.hosts| then db.(hosts := db.hosts[i := h]) else db
    case PushHost(h) => db.(hosts := db.hosts + [h])
    case DropConns(u, host) => db.(conns := Keep(db.conns, c => NotPair(u, host, c)))
    case PushConn(c) => db.(conns := db.conns + [c])
    case SetExport(u, n) => db.(exports := db.exports[u := n])
    case DelExport(u) => db.(exports := db.exports - {u})
  }

  function EditedAll(db: Db, es: seq<Edit>): Db {
    if es == [] then db else Edited(EditedAll(db, es[..|es| - 1]), es[|es| - 1])
  }

  method CopyTables(objects: Table<Object>, hosts: Table<Host>, conns: Table<Connection>)
    returns (os: Table<Object>, hs: Table<Host>, cs: Table<Connection>)
    requires objects.Valid() && hosts.Valid() && conns.Valid()
    ensures os.Valid() && hs.Valid() && cs.Valid() && fresh(os.Repr) && fresh(hs.Repr) && fresh(cs.Repr)
    ensures os.Repr !! hs.Repr && os.Repr !! cs.Repr && hs.Repr !! cs.Repr
    ensures os.View() == old(objects.View()) && hs.View() == old(hosts.View()) && cs.View() == old(conns.View())
  {
    os := new Table<Object>.Copy(objects);
    hs := new Table<Host>.Copy(hosts);
    cs := new Table<Connection>.Copy(conns);
  }

  /** The database as it lies in memory. */
  class Memory {
    const version: int
    const objects: Table<Object>
    const hosts: Table<Host>
    const conns: Table<Connection>
    const exports: Indexes
    const portals: seq<Portal>
    const targetIqn: string
    const machineId: string

    ghost function Foot(): set<object>
      reads objects, hosts, conns
    {
      objects.Repr + hosts.Repr + conns.Repr + {exports}
    }

    ghost predicate Valid()
      reads objects, hosts, conns, Foot()
    {
      Apart() == true // carried whole, not clause by clause
    }

    /** The slices and the map share nothing. */
    ghost predicate Apart()
      reads objects, hosts, conns, Foot()
    {
      && objects.Valid() && hosts.Valid() && conns.Valid()
      && objects.Repr !! hosts.Repr && objects.Repr !! conns.Repr && hosts.Repr !! conns.Repr
      && exports !in objects.Repr + hosts.Repr + conns.Repr
    }

    ghost function Contents(): Db
      reads objects, hosts, conns, Foot()
      requires Valid()
    {
      Db(version, objects.View(), hosts.View(), conns.View(), exports.m, portals, targetIqn, machineId)
    }

    /** snapshotState (appliance/appliance.go:968-989): every slice, record and map anew, and the
        two identity fields left at their zero value. */
    constructor Snapshot(db: Memory)
      requires db.Valid()
      ensures Valid() && fresh(Foot()) && Contents() == SnapshotOf(old(db.Contents()))
    {
      var os, hs, cs := CopyTables(db.objects, db.hosts, db.conns);
      var es := new Indexes(db.exports.m);
      version, objects, hosts, conns, exports, portals := db.version, os, hs, cs, es, db.portals;
      targetIqn, machineId := "", "";
    }

    method WriteObjects(e: Edit)
      requires Valid() && e.OnObjects()
      modifies objects.Repr
      ensures Valid() && fresh(Foot() - old(Foot())) && Contents() == Edited(old(Contents()), e)
    {
      if e.DropObjects? {
        objects.FilterInPlace(o => NotUuid(e.u, o));
      } else if e.PushObject? {
        objects.Append(e.o);
      } else if e.i < objects.len {
        objects.Edit(e.i, e.o);
      }
    }

    method WriteHosts(e: Edit)
      requires Valid() && e.OnHosts()
      modifies hosts.Repr
      ensures Valid() && fresh(Foot() - old(Foot())) && Contents() == Edited(old(Contents()), e)
    {
      if e.DropHosts? {
        hosts.FilterInPlace(h => NotHost(e.u, h));
      } else if e.PushHost? {
        hosts.Append(e.h);
      } else if e.i < hosts.len {
        hosts.Edit(e.i, e.h);
      }
    }

    method WriteConns(e: Edit)
      requires Valid() && e.OnConns()
      modifies conns.Repr
      ensures Valid() && fresh(Foot() - old(Foot())) && Contents() == Edited(old(Contents()), e)
    {
      if e.DropConns? {
        conns.FilterInPlace(c => NotPair(e.u, e.host, c));
      } else {
        conns.Append(e.c);
      }
    }

    /** One write of a mutation closure, in place. */
    method Write(e: Edit)
      requires Valid()
      modifies Foot()
      ensures Valid() && fresh(Foot() - old(Foot())) && Contents() == Edited(old(Contents()), e)
    {
      if e.OnObjects() {
        WriteObjects(e);
      } else if e.OnHosts() {
        WriteHosts(e);
      } else if e.OnConns() {
        WriteConns(e);
      } else if e.SetExport? {
        exports.m := exports.m[e.u := e.n];
      } else {
        exports.m := exports.m - {e.u};
      }
    }

    /** A mutation closure: any number of such writes. */
    method Mutate(es: seq<Edit>)
      requires Valid()
      modifies Foot()
      ensures Valid() && fresh(Foot() - old(Foot())) && Contents() == EditedAll(old(Contents()), es)
    {
      for i := 0 to |es|
        invariant Valid() && fresh(Foot() - old(Foot())) && Contents() == EditedAll(old(Contents()), es[..i])
      {
        assert es[..i + 1][..i] == es[..i];
        Write(es[i]);
      }
      assert es[..|es|] == es;
    }
  }

  /** snapshot, then mutate the live state: the snapshot does not move. */
  method Try(m: Memory, es: seq<Edit>) returns (backup: Memory)
    requires m.Valid()
    modifies m.Foot()
    ensures backup.Valid() && fresh(backup.Foot()) && backup.Contents() == SnapshotOf(old(m.Contents()))
    ensures m.Valid() && m.Contents() == EditedAll(old(m.Contents()), es)
  {
    backup := new Memory.Snapshot(m);
    assert backup.Foot() !! m.Foot();
    m.Mutate(es);
  }

  /** The coordinator's pointer to its database, and the file. */
  class Held {
    var st: Memory
    /** what the file says */
    ghost var disk: Db

    constructor (m: Memory, ghost d: Db)
      ensures st == m && disk == d
    {
      st, disk := m, d;
    }

    /** persistOnly and the storing half of commit: a mutation that fails, or whose write does not
        happen, is undone exactly, but for the identity fields; otherwise memory and disk hold it. */
    method Commit(es: seq<Edit>, refused: bool, written: bool) returns (ok: bool)
      requires st.Valid() && this !in st.Foot()
      modifies this, st.Foot()
      ensures st.Valid() && (ok <==> !refused && written)
      ensures !ok ==> disk == old(disk) && st.Contents() == SnapshotOf(old(st.Contents()))
      ensures ok ==> disk == st.Contents() == EditedAll(old(st.Contents()), es)
      // the rollback is exact if and only if there was no identity to lose
      ensures !ok ==> (st.Contents() == old(st.Contents()) <==> old(st.targetIqn) == "" && old(st.machineId) == "")
    {
      var backup := Try(st, es);
      ok := !refused && written;
      if ok {
        disk := st.Contents();
      } else {
        st := backup;
      }
    }
  }
}
