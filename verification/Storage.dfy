/** The crash protocol between object bytes and object records: storage/store.go with the byte
    halves of Create, Delete and Resize (appliance/objects.go) and startup's adoptStorage
    (appliance/appliance.go:672-721).

    A rename, a truncate or a removal takes effect at once and survives a crash only once the
    directory or the file has been fsynced.  A crash may come between any two steps, so every
    step keeps the invariants, and every step may fail. */
module Storage {

  /** How a write of the record file ends. */
  datatype Written = Failed | NotDurable | Durable

  datatype Result = Stored(w: Written) | NotMade

  ghost predicate Backed(versions: set<map<string, nat>>, synced: map<string, nat>) {
    forall r, u | r in versions && u in r :: u in synced && r[u] <= synced[u]
  }

  /** m1 is part of m0. */
  ghost predicate Trimmed(m0: map<string, nat>, m1: map<string, nat>) {
    forall u | u in m1 :: u in m0 && m1[u] == m0[u]
  }

  /** One record grows: all versions stay backed exactly when the new one is. */
  lemma BackedStep(v0: set<map<string, nat>>, v1: set<map<string, nat>>, synced: map<string, nat>, records: map<string, nat>, u: string, size: nat)
    requires Backed(v0, synced) && records in v0 && u in synced
    requires records[u := size] in v1 && forall r | r in v1 :: r in v0 || r == records[u := size]
    ensures Backed(v1, synced) <==> size <= synced[u]
  {
    var next := records[u := size];
    forall v | v in next && v != u ensures v in synced && next[v] <= synced[v] {
      assert v in records;
    }
    if Backed(v1, synced) {
      assert u in next;
    }
  }

  class Disk {
    /** the object directories there are, and the size of each backing file */
    var files: map<string, nat>
    /** per file, the size that a crash cannot take back */
    var synced: map<string, nat>
    /** the directory entries that a crash cannot take back */
    var entries: set<string>
    /** the records (capacity by UUID): in memory, as on the disk's current file */
    var records: map<string, nat>
    /** every version of the record file that a crash may leave behind */
    var versions: set<map<string, nat>>

    ghost predicate Shape()
      reads this
    {
      && synced.Keys == files.Keys && entries <= files.Keys && records in versions
      && (forall u | u in files :: synced[u] <= files[u])
    }

    ghost predicate Inv()
      reads this
    {
      Shape() && Anchored()
    }

    /** Whatever a crash brings back, every record has its file. */
    ghost predicate Anchored()
      reads this
    {
      forall r, u | r in versions && u in r :: u in entries
    }

    /** Whatever a crash brings back, every record's file is at least as long as it says. */
    ghost predicate Sized()
      reads this
    {
      Backed(versions, synced)
    }

    /** An empty store. */
    constructor ()
      ensures Inv() && Sized() && files == map[] && records == map[]
    {
      files, synced, entries, records, versions := map[], map[], {}, map[], {map[]};
    }

    // ----- single steps -----

    /** Any system call may fail. */
    method Works() returns (ok: bool) {
      ok := *;
    }

    /** The staged directory is renamed into place; its file was fsynced before. */
    method Appear(u: string, size: nat)
      requires Inv() && u !in files
      modifies this`files, this`synced
      ensures Inv() && (old(Sized()) ==> Sized())
      ensures files == old(files)[u := size] && synced == old(synced)[u := size]
    {
      files, synced := files[u := size], synced[u := size];
    }

    /** fsync of the objects directory. */
    method SyncEntries()
      requires Inv()
      modifies this`entries
      ensures Inv() && (old(Sized()) ==> Sized()) && entries == files.Keys
    {
      entries := files.Keys;
    }

    /** The file grows, for now. */
    method Truncate(u: string, size: nat)
      requires Inv() && u in files && files[u] <= size
      modifies this`files
      ensures Inv() && (old(Sized()) ==> Sized()) && files == old(files)[u := size]
    {
      files := files[u := size];
    }

    /** fsync of one backing file. */
    method SyncFile(u: string)
      requires Inv() && u in files
      modifies this`synced
      ensures Inv() && (old(Sized()) ==> Sized()) && synced == old(synced)[u := files[u]]
    {
      synced := synced[u := files[u]];
    }

    /** The record file is replaced by a rename: the old version may still come back. */
    method WriteRecords(next: map<string, nat>)
      requires Inv() && forall u | u in next :: u in entries
      modifies this`records, this`versions
      ensures Inv() && records == next && versions == old(versions) + {next}
    {
      records, versions := next, versions + {next};
    }

    /** fsync of the directory the record file is in. */
    method SyncRecords()
      requires Inv()
      modifies this`versions
      ensures Inv() && versions == {records} && (old(Sized()) ==> Sized())
    {
      versions := {records};
    }

    /** The directory and its bytes are removed; no record may name it. */
    method Remove(u: string)
      requires Inv() && forall r | r in versions :: u !in r
      modifies this`files, this`synced, this`entries
      ensures Inv() && (old(Sized()) ==> Sized())
      ensures files == old(files) - {u} && synced == old(synced) - {u} && entries == old(entries) - {u}
    {
      files, synced, entries := files - {u}, synced - {u}, entries - {u};
    }

    // ----- a crash -----

    /** What a crash leaves of the files: every durable entry and any of the others, and for each
        durable entry a size between the durable one and the last. */
    function Survivors(stray: map<string, nat>, kept: map<string, nat>): (now: map<string, nat>)
      requires Shape()
      reads this
    {
      map u | u in stray.Keys + entries ::
        if u in entries then (if u in kept && synced[u] <= kept[u] <= files[u] then kept[u] else synced[u]) else stray[u]
    }

    /** Power is lost, leaving the version r of the records and the files those choices say. */
    method Lose(r: map<string, nat>, stray: map<string, nat>, kept: map<string, nat>)
      requires Shape() && r in versions
      modifies this
      ensures Shape() && records == r && versions == {r} && files == old(Survivors(stray, kept)) && synced == files && entries == files.Keys
      ensures old(Anchored()) ==> Inv()
      ensures old(Anchored() && Sized()) ==> Sized()
    {
      var now := Survivors(stray, kept);
      files, synced, entries, records, versions := now, now, now.Keys, r, {r};
    }

    /** A crash: any version of the records that was not superseded durably, any files that are
        left. */
    method Crash()
      requires Inv()
      modifies this
      ensures Inv() && records in old(versions) && versions == {records} && synced == files && entries == files.Keys
      ensures forall u | u in records :: u in files
      ensures old(Sized()) ==> Sized() && forall u | u in records :: records[u] <= files[u]
    {
      var r :| r in versions;
      var stray: map<string, nat>, kept: map<string, nat> := *, *;
      Lose(r, stray, kept);
    }

    /** Nothing a crash may still bring back names an object that is not recorded now. */
    ghost predicate NoneForgotten()
      reads this
    {
      forall r, u | r in versions && u in r :: u in records
    }

    /** Quarantine: set aside under another name, bytes and all. */
    method SetAside(u: string)
      requires Shape() && u in files && u !in records
      modifies this`files, this`synced, this`entries
      ensures Shape() && files == old(files) - {u} && entries == old(entries) - {u} && synced == old(synced) - {u}
    {
      files, synced, entries := files - {u}, synced - {u}, entries - {u};
    }

    /** adoptStorage: a directory with no record is set aside with its bytes, a record with no
        directory is marked missing, and of those there are none.  The promise to later crashes
        is kept exactly when no older version of the records can come back that names something
        set aside; after a crash there is no older version.  With no record file at all, existed
        is false and directories are left alone. */
    method Adopt(existed: bool) returns (ok: bool, aside: map<string, nat>, missing: set<string>)
      requires Inv()
      modifies this`files, this`synced, this`entries
      ensures Shape() && missing == {}
      ensures ok ==> (Anchored() <==> NoneForgotten()) && (old(Sized()) ==> (Sized() <==> NoneForgotten()))
      ensures NoneForgotten() ==> Anchored() && (old(Sized()) ==> Sized())
      ensures ok ==> aside.Keys == old(files).Keys - records.Keys
      ensures ok && !existed ==> aside == map[]
      ensures files.Keys <= old(files).Keys && aside.Keys == old(files).Keys - files.Keys
      ensures forall u | u in aside :: aside[u] == old(files)[u]
      ensures forall u | u in records :: u in files && files[u] == old(files)[u]
    {
      aside, missing := map[], {};
      ok := existed || files == map[];
      if ok {
        ok, aside := Tidy();
      }
      missing := set u | u in records && u !in files;
      if NoneForgotten() {
        assert forall r, u | r in versions && u in r :: u in files;
      } else if ok {
        ghost var u :| u !in records && exists v :: v in versions && u in v;
        assert u !in files;
      }
    }

    /** Every directory without a record is set aside, or so many of them as work. */
    method Tidy() returns (ok: bool, aside: map<string, nat>)
      requires Inv()
      modifies this`files, this`synced, this`entries
      ensures Shape() && Trimmed(old(files), files) && Trimmed(old(synced), synced) && entries == old(entries) * files.Keys
      ensures forall u | u in records :: u in files
      ensures ok ==> files.Keys <= records.Keys
      ensures aside.Keys == old(files).Keys - files.Keys && Trimmed(old(files), aside)
    {
      aside := map[];
      var dirs := files.Keys;
      while dirs != {}
        invariant Shape() && dirs <= files.Keys && (forall u | u in files && u !in dirs :: u in records)
        invariant Trimmed(old(files), files) && Trimmed(old(synced), synced) && entries == old(entries) * files.Keys
        invariant forall u | u in records :: u in files
        invariant aside.Keys == old(files).Keys - files.Keys && Trimmed(old(files), aside)
        decreases dirs
      {
        var d :| d in dirs;
        if d !in records {
          ok := Works();
          if !ok { return; }
          aside := aside[d := files[d]];
          SetAside(d);
        }
        dirs := dirs - {d};
      }
      ok := true;
    }

    /** A restart after a crash: whatever came back, the store's promise holds again. */
    method Reboot(existed: bool) returns (ok: bool)
      requires Inv()
      modifies this
      ensures Inv() && (old(Sized()) ==> Sized()) && (ok ==> files.Keys == records.Keys)
    {
      Crash();
      ghost var r := records;
      var aside, missing;
      ok, aside, missing := Adopt(existed);
      assert versions == {r};
    }

    // ----- operations -----

    /** persist (appliance/appliance.go:902-945). */
    method Persist(next: map<string, nat>) returns (w: Written)
      requires Inv() && forall u | u in next :: u in entries
      modifies this`records, this`versions
      ensures Inv()
      ensures w == Failed ==> records == old(records) && versions == old(versions)
      ensures w != Failed ==> records == next && next in versions && versions <= old(versions) + {next}
      ensures w == NotDurable ==> versions == old(versions) + {next}
      ensures w == Durable ==> versions == {next}
    {
      var ok := Works();
      if !ok { return Failed; }
      WriteRecords(next);
      ok := Works();
      if !ok { return NotDurable; }
      SyncRecords();
      return Durable;
    }

    /** stage (storage/store.go:229-254): filled and fsynced under another name, then renamed. */
    method Stage(u: string, size: nat) returns (ok: bool)
      requires Inv()
      modifies this`files, this`synced, this`entries
      ensures Inv() && (old(Sized()) ==> Sized()) && old(entries) <= entries
      ensures files == old(files) || (u !in old(files) && files == old(files)[u := size])
      ensures forall v | v in old(synced) :: v in synced && synced[v] == old(synced)[v]
      ensures ok ==> u !in old(files) && u in entries && u in synced && synced[u] == files[u] == size
    {
      ok := Works();
      if !ok || u in files { return false; }
      Appear(u, size);
      ok := Works();
      if ok {
        SyncEntries();
      }
    }

    /** Store.Delete (storage/store.go:214-219). */
    method Drop(u: string)
      requires Inv() && forall r | r in versions :: u !in r
      modifies this`files, this`synced, this`entries
      ensures Inv() && (old(Sized()) ==> Sized()) && u !in files
    {
      Remove(u);
      var ok := Works();
      if ok {
        SyncEntries();
      }
    }

    /** Bytes first, record second; a record that was not written takes the bytes with it
        (appliance/objects.go:187-218). */
    method Record(u: string, size: nat) returns (w: Written)
      requires Inv() && u in entries && (forall r | r in versions :: u !in r)
      modifies this
      ensures Inv() && (old(Sized()) && u in old(synced) && size <= old(synced[u]) ==> Sized())
      ensures w == Failed ==> records == old(records) && u !in files
      ensures w != Failed ==> records == old(records)[u := size]
    {
      w := Persist(records[u := size]);
      if w == Failed {
        Drop(u);
      }
    }

    /** Create: every size up to the record's is durable before the record is. */
    method Create(u: string, size: nat) returns (r: Result)
      requires Inv() && forall v | v in versions :: u !in v
      modifies this
      ensures Inv() && (old(Sized()) ==> Sized())
      ensures r != NotMade && r.w != Failed ==> records == old(records)[u := size]
      ensures r == NotMade || r.w == Failed ==> records == old(records)
    {
      var ok := Stage(u, size);
      if !ok { return NotMade; }
      var w := Record(u, size);
      return Stored(w);
    }

    /** Store.Resize (storage/store.go:182-202): a file that already has the size asked for is
        left alone, fsynced or not. */
    method ResizeFile(u: string, size: nat) returns (ok: bool)
      requires Inv()
      modifies this`files, this`synced
      ensures Inv() && (old(Sized()) ==> Sized())
      ensures forall v | v in old(files) && v != u :: v in files && files[v] == old(files)[v] && synced[v] == old(synced)[v]
      ensures files.Keys == old(files).Keys
      ensures ok ==> u in files && files[u] == size
      ensures ok ==> synced[u] == if size == old(files)[u] then old(synced)[u] else size
    {
      ok := Works();
      if !ok || u !in files || size < files[u] { return false; }
      if size == files[u] { return true; }
      ok := Works();
      if !ok { return; }
      Truncate(u, size);
      ok := Works();
      if ok {
        SyncFile(u);
      }
    }

    /** A copy: the staged file is the source's, grown if asked (appliance/objects.go:177-186). */
    method Clone(src: string, u: string, size: nat) returns (r: Result)
      requires Inv() && (forall v | v in versions :: u !in v) && src in records && records[src] <= size
      modifies this
      ensures Inv() && (old(Sized()) ==> Sized())
      ensures r == NotMade || r.w == Failed ==> records == old(records)
    {
      if src !in files { return NotMade; }
      var ok := Stage(u, files[src]);
      if !ok { return NotMade; }
      if size > records[src] {
        ok := ResizeFile(u, size);
        if !ok {
          Drop(u);
          return NotMade;
        }
      }
      var w := Record(u, size);
      return Stored(w);
    }

    /** The size asked for is the file's already, and not yet fsynced. */
    ghost predicate Unflushed(u: string, size: nat)
      reads this
    {
      u in files && u in synced && size == files[u] && synced[u] < size
    }

    /** Resize: the bytes grow before the record does.  A record that was written has its bytes
        durable unless an earlier attempt had grown the file and failed to fsync it. */
    method Resize(u: string, size: nat) returns (r: Result)
      requires Inv() && u in records && records[u] < size
      modifies this
      ensures Inv()
      ensures r == NotMade || r.w == Failed ==> records == old(records) && (old(Sized()) ==> Sized())
      ensures r != NotMade && r.w != Failed ==> records == old(records)[u := size]
      ensures r != NotMade && r.w != Failed && old(Sized()) ==> (Sized() <==> !old(Unflushed(u, size)))
    {
      var ok := ResizeFile(u, size);
      if !ok { return NotMade; }
      ghost var v0, was := versions, records;
      var w := Persist(records[u := size]);
      if w != Failed && Backed(v0, synced) {
        BackedStep(v0, versions, synced, was, u, size);
      }
      return Stored(w);
    }

    /** Delete: record first, bytes second, and only once the record is durably gone. */
    method Delete(u: string) returns (w: Written)
      requires Inv()
      modifies this
      ensures Inv() && (old(Sized()) ==> Sized())
      ensures w == Failed ==> records == old(records)
      ensures w != Failed ==> records == old(records) - {u}
      ensures w == NotDurable ==> old(versions) <= versions && files == old(files) && entries == old(entries)
    {
      w := Persist(records - {u});
      if w == Durable {
        Drop(u);
      }
    }
  }

  /** A grow whose fsync failed, tried again: the record now outruns what a crash leaves. */
  method RetriedGrow(u: string) returns (d: Disk, r: Result)
    ensures d.Inv() && (r != NotMade && r.w != Failed ==> !d.Sized())
  {
    d := new Disk();
    d.Appear(u, 1);
    d.SyncEntries();
    d.WriteRecords(map[u := 1]);
    d.SyncRecords();
    assert d.records == map[u := 1] && d.synced[u] == 1;
    assert d.Sized();
    d.Truncate(u, 2); // and the fsync fails
    r := d.Resize(u, 2);
  }

  /** An object whose removal was recorded but not durably, and a restart without a crash that
      sets its directory aside: a crash then brings back a record with no directory. */
  method ForgottenDelete(u: string) returns (d: Disk, w: Written, ok: bool)
    ensures w == NotDurable && ok ==> u in d.records && u !in d.files
  {
    d := new Disk();
    d.Appear(u, 1);
    d.SyncEntries();
    d.WriteRecords(map[u := 1]);
    d.SyncRecords();
    w := d.Delete(u);
    var aside, missing;
    ok, aside, missing := d.Adopt(true);
    if w == NotDurable && ok {
      d.Lose(map[u := 1], map[], map[]);
    }
  }
}
