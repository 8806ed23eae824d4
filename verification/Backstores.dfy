/** Reconciling one storage object (lio/backstore.go). */
module Backstores {
  import opened LioConfig
  import opened Kernel

  /** AttrDrift: a managed attribute left at its live value.  None: it could not be read. */
  datatype Drift = Drift(name: string, attr: Attr, live: Option<string>, desired: string)

  /** The desired attributes with every known drift set back to the live value, the
      patch appliedView makes (appliance/translate.go:387-421). */
  function Patch(name: string, attrs: map<Attr, string>, drift: seq<Drift>): map<Attr, string> {
    if drift == [] then attrs
    else
      var d := drift[|drift| - 1];
      var m := Patch(name, attrs, drift[..|drift| - 1]);
      if d.name == name && d.live.Some? then m[d.attr := d.live.value] else m
  }

  lemma {:induction false} PatchKeeps(name: string, attrs: map<Attr, string>, drift: seq<Drift>, more: seq<Drift>)
    requires forall d | d in more :: d.name != name
    ensures Patch(name, attrs, drift + more) == Patch(name, attrs, drift)
  {
    if more == [] {
      assert drift + more == drift;
    } else {
      var init := more[..|more| - 1];
      assert (drift + more)[..|drift + more| - 1] == drift + init;
      PatchKeeps(name, attrs, drift, init);
    }
  }

  lemma {:induction false} PatchSkips(name: string, attrs: map<Attr, string>, drift: seq<Drift>, more: seq<Drift>)
    requires forall d | d in drift :: d.name != name
    ensures Patch(name, attrs, drift + more) == Patch(name, attrs, more)
  {
    if more == [] {
      assert drift + more == [] + drift;
      assert [] + drift == drift;
      PatchKeeps(name, attrs, [], drift);
    } else {
      var init := more[..|more| - 1];
      assert (drift + more)[..|drift + more| - 1] == drift + init;
      PatchSkips(name, attrs, drift, init);
    }
  }

  function BlockSizeOf(b: Backstore): (n: int)
    ensures n > 0
  {
    if BlockSize !in b.attrs then 512
    else if b.attrs[BlockSize] == "1024" then 1024
    else if b.attrs[BlockSize] == "2048" then 2048
    else if b.attrs[BlockSize] == "4096" then 4096
    else 512
  }

  function Floor(size: int, block: int): int
    requires block > 0
  {
    size - size % block
  }

  predicate SizeServed(b: Backstore, o: Obj) {
    b.key.plugin.FileIO? && b.size > 0 ==> Floor(b.size, BlockSizeOf(b)) == Floor(o.size, BlockSizeOf(b))
  }

  function Flag(b: bool): string { if b then "1" else "0" }

  /** constrainWriteCache (lio/backstore.go:679-702): the write-cache claim follows the live mode. */
  function Constrained(b: Backstore, o: Obj): map<Attr, string> {
    if WriteCache in b.attrs && b.key.plugin.FileIO? then b.attrs[WriteCache := Flag(o.buffered)] else b.attrs
  }

  /** The advertised write cache agrees with how the backing file is open. */
  predicate Welded(o: Obj) {
    WriteCache in o.attrs && o.attrs[WriteCache] == Flag(o.buffered)
  }

  /** The config derives the mode and the claim from one flag (appliance/translate.go:132, 205). */
  predicate OneFlag(b: Backstore) {
    b.key.plugin.FileIO? && WriteCache in b.attrs && b.attrs[WriteCache] == Flag(b.buffered)
  }

  /** A half-made buffered object that b is about to finish unbuffered. */
  predicate StaleMode(t: Tree, b: Backstore) {
    b.key in t.objs && !t.objs[b.key].enabled && t.objs[b.key].buffered && !b.buffered
  }

  /** Every managed attribute is at its desired value, or at the live value drift reports. */
  ghost predicate Reported(b: Backstore, o: Obj, drift: seq<Drift>) {
    && Patch(b.key.name, b.attrs, drift).Keys == b.attrs.Keys
    && forall a | a in b.attrs :: a in o.attrs && o.attrs[a] == Patch(b.key.name, b.attrs, drift)[a]
  }

  /** There is nothing left to do for b. */
  ghost predicate Settled(b: Backstore, o: Obj) {
    && o.enabled && o.dev == b.dev && SizeServed(b, o)
    && AtTarget(o.attrs, Constrained(b, o))
  }

  /** now is was with some values taken from want. */
  ghost predicate Overlaid(was: map<Attr, string>, now: map<Attr, string>, want: map<Attr, string>) {
    && now.Keys == was.Keys
    && forall a | a in now :: now[a] == was[a] || (a in want && now[a] == want[a])
  }

  ghost predicate AtTarget(attrs: map<Attr, string>, want: map<Attr, string>) {
    forall a | a in want :: a in attrs && attrs[a] == want[a]
  }

  ghost predicate WeldedAt(t: Tree, k: Key) {
    k in t.objs && t.objs[k].enabled ==> Welded(t.objs[k])
  }

  /** No enabled fileio object is unwelded, and unless flag is on no half-made one is buffered. */
  ghost predicate WeldSafe(objs: map<Key, Obj>, flag: bool) {
    forall k | k in objs && k.plugin.FileIO? ::
      (objs[k].enabled ==> Welded(objs[k])) && (!objs[k].enabled && objs[k].buffered ==> flag)
  }

  /** Every backstore of the list derives its mode and its claim from flag. */
  ghost predicate FlagOf(bs: seq<Backstore>, flag: bool) {
    forall b | b in bs :: OneFlag(b) && b.buffered == flag
  }

  lemma WeldStep(t0: Tree, t1: Tree, b: Backstore)
    requires OnlyObj(t0, t1, b.key) && OneFlag(b) && WeldSafe(t0.objs, b.buffered)
    requires !StaleMode(t0, b) && WeldedAt(t0, b.key) ==> WeldedAt(t1, b.key)
    requires !ObjAt(t1, b.key).enabled && ObjAt(t1, b.key).buffered ==> b.buffered || ObjAt(t0, b.key).buffered
    ensures WeldSafe(t1.objs, b.buffered)
  {
  }

  /** What a successful pass leaves of b. */
  ghost predicate Done(b: Backstore, o: Obj, drift: seq<Drift>) {
    o.enabled && o.dev == b.dev && SizeServed(b, o) && Reported(b, o, drift)
  }

  ghost predicate BackstoreErr(err: Err) {
    err in {Ok, Io, Inval, Invalid, Incompatible}
  }

  predicate Blank(rec: string) {
    forall c | c in rec :: c in " \t\n\r"
  }

  /** The saved records the provider gives for an object, blank ones aside. */
  function Given(records: map<Key, seq<string>>, k: Key): set<string> {
    if k in records then set r | r in records[k] && !Blank(r) else {}
  }

  /** The object at k was given no record but those it had and the provider's. */
  ghost predicate GivenOnly(t0: Tree, t1: Tree, k: Key, records: map<Key, seq<string>>) {
    ObjAt(t1, k).loaded <= ObjAt(t0, k).loaded + Given(records, k)
  }

  /** If the object at k is enabled it was so before, or has been given every record the provider
      has for it, which answered; and it has lost none. */
  ghost predicate GivenFirst(t0: Tree, t1: Tree, k: Key, records: map<Key, seq<string>>) {
    && (ObjAt(t1, k).enabled ==> ObjAt(t0, k).enabled || (k in records && Given(records, k) <= ObjAt(t1, k).loaded))
    && ObjAt(t0, k).loaded <= ObjAt(t1, k).loaded
  }

  predicate AcceptableAttr(attr: Attr, val: string) {
    (attr == BlockSize ==> ValidBlockSize(val)) && (attr == WriteCache ==> val in {"0", "1"})
  }

  // ----- what a pass needs of the object and of the config -----

  /** Each value wanted is there or one that the kernel takes. */
  ghost predicate Takes(attrs: map<Attr, string>, want: map<Attr, string>) {
    forall a | a in want :: a in attrs && (attrs[a] == want[a] || AcceptableAttr(a, want[a]))
  }

  predicate WholeBlocks(b: Backstore) {
    b.key.plugin.FileIO? ==> b.size != 0 && b.size % BlockSizeOf(b) == 0
  }

  /** An enabled object can become b: same device, no smaller, values the kernel takes. */
  ghost predicate Adjustable(b: Backstore, o: Obj) {
    && o.dev == b.dev && Takes(o.attrs, Constrained(b, o))
    && (SizeServed(b, o) || (b.size >= o.size && b.size % BlockSizeOf(b) == 0))
  }

  /** b can be made from nothing: whole blocks, attributes there are, an answer about its records. */
  ghost predicate Makeable(b: Backstore, records: map<Key, seq<string>>) {
    WholeBlocks(b) && b.key in records && b.attrs.Keys <= DefaultAttrs(true).Keys
  }

  /** Nothing stands in the way of b but a call that fails. */
  ghost predicate Servable(b: Backstore, t: Tree, records: map<Key, seq<string>>) {
    ValidBackstore(b) && if ObjAt(t, b.key).enabled then Adjustable(b, ObjAt(t, b.key)) else Makeable(b, records)
  }

  function ObjAt(t: Tree, k: Key): Obj { if k in t.objs then t.objs[k] else NEW_OBJ }

  /** Make the object and describe it to the kernel (lio/backstore.go:311-324). */
  method MakeObj(fs: Configfs, b: Backstore, size: int) returns (err: Err)
    requires fs.Inv() && !ObjAt(fs.tree, b.key).enabled
    modifies fs`tree, fs`writes, fs`owed
    ensures fs.Inv() && fs.owed == old(fs.owed) && err in {Ok, Io, Inval}
    ensures fs.faults || err == Ok
    ensures OnlyObj(old(fs.tree), fs.tree, b.key) && !ObjAt(fs.tree, b.key).enabled
    ensures ObjAt(fs.tree, b.key).loaded == ObjAt(old(fs.tree), b.key).loaded
    ensures ObjAt(fs.tree, b.key).buffered ==> b.buffered || ObjAt(old(fs.tree), b.key).buffered
    ensures err == Ok ==> b.key in fs.tree.objs
    ensures err == Ok ==> fs.tree.objs[b.key] == ObjAt(old(fs.tree), b.key).(size := size, dev := b.dev,
              buffered := (b.key.plugin.FileIO? && b.buffered) || ObjAt(old(fs.tree), b.key).buffered)
  {
    err := fs.OnDir(MkObj(b.key));
    if err != Ok { return; }
    err := fs.OnObj(b.key, Control(size, b.key.plugin.FileIO? && b.buffered));
    if err != Ok { return; }
    err := fs.OnObj(b.key, Udev(b.dev));
  }

  /** ensureBackstore (lio/backstore.go:265-373).  records holds the provider's answer
      for each object it can answer for. */
  method EnsureBackstore(fs: Configfs, b: Backstore, records: map<Key, seq<string>>) returns (err: Err, drift: seq<Drift>)
    requires fs.Inv()
    modifies fs`tree, fs`writes, fs`owed
    ensures fs.Inv() && OnlyObj(old(fs.tree), fs.tree, b.key) && BackstoreErr(err)
    ensures Servable(b, old(fs.tree), records) ==> fs.faults || err == Ok
    ensures forall d | d in drift :: d.name == b.key.name && d.live.Some?
    ensures err == Ok ==> b.key in fs.tree.objs && Done(b, fs.tree.objs[b.key], drift)
    ensures GivenOnly(old(fs.tree), fs.tree, b.key, records) && GivenFirst(old(fs.tree), fs.tree, b.key, records)
    ensures b.key in old(fs.tree).objs && Settled(b, old(fs.tree).objs[b.key]) ==>
              fs.tree == old(fs.tree) && fs.writes == old(fs.writes)
    // the weld of mode and claim is kept at every exit but one
    ensures OneFlag(b) && !StaleMode(old(fs.tree), b) && WeldedAt(old(fs.tree), b.key) ==> WeldedAt(fs.tree, b.key)
    ensures OneFlag(b) && StaleMode(old(fs.tree), b) && err == Ok ==> !WeldedAt(fs.tree, b.key)
    ensures OneFlag(b) && WeldSafe(old(fs.tree).objs, b.buffered) ==> WeldSafe(fs.tree.objs, b.buffered)
  {
    drift := [];
    if !ValidBackstore(b) {
      return Invalid, [];
    }
    err := fs.Readable();
    if err != Ok { return; }
    if b.key in fs.tree.objs && fs.tree.objs[b.key].enabled {
      if fs.tree.objs[b.key].dev != b.dev {
        return Incompatible, [];
      }
      err, drift := ReconcileMutable(fs, b);
    } else {
      err := CreateBackstore(fs, b, records);
    }
    if OneFlag(b) && WeldSafe(old(fs.tree).objs, b.buffered) {
      WeldStep(old(fs.tree), fs.tree, b);
    }
  }

  /** The size to create with: the backing file's if none is given, and whole blocks. */
  method SizeFor(b: Backstore) returns (ok: bool, size: int)
    ensures ok ==> b.key.plugin.FileIO? && b.size > 0 ==> size == b.size
    ensures ok ==> b.key.plugin.FileIO? ==> size % BlockSizeOf(b) == 0
    ensures WholeBlocks(b) ==> ok
  {
    size := b.size;
    ok := true;
    if b.key.plugin.FileIO? {
      if size == 0 {
        size := *;
      }
      ok := size % BlockSizeOf(b) == 0;
    }
  }

  /** The create path (lio/backstore.go:307-372), also taken for an object that exists
      but was never enabled. */
  method CreateBackstore(fs: Configfs, b: Backstore, records: map<Key, seq<string>>) returns (err: Err)
    requires fs.Inv() && (b.key in fs.tree.objs ==> !fs.tree.objs[b.key].enabled)
    modifies fs`tree, fs`writes, fs`owed
    ensures fs.Inv() && OnlyObj(old(fs.tree), fs.tree, b.key) && BackstoreErr(err)
    ensures ValidBackstore(b) && Makeable(b, records) ==> fs.faults || err == Ok
    ensures err == Ok ==> b.key in fs.tree.objs && Done(b, fs.tree.objs[b.key], [])
    ensures GivenOnly(old(fs.tree), fs.tree, b.key, records) && GivenFirst(old(fs.tree), fs.tree, b.key, records)
    ensures ObjAt(fs.tree, b.key).buffered ==> b.buffered || ObjAt(old(fs.tree), b.key).buffered
    ensures OneFlag(b) && !StaleMode(old(fs.tree), b) ==> WeldedAt(fs.tree, b.key)
    ensures OneFlag(b) && StaleMode(old(fs.tree), b) && err == Ok ==> !WeldedAt(fs.tree, b.key)
  {
    var ok, size := SizeFor(b);
    if !ok {
      return Invalid;
    }
    err := MakeObj(fs, b, size);
    if err != Ok { return; }
    err := LoadAptpl(fs, b.key, records);
    if err != Ok { return; }
    err := FinishObj(fs, b);
  }

  /** Enable the object, then write its managed attributes (lio/backstore.go:346-357). */
  method FinishObj(fs: Configfs, b: Backstore) returns (err: Err)
    requires fs.Inv() && b.key in fs.tree.objs && !fs.tree.objs[b.key].enabled
    requires b.key in fs.owed && fs.owed[b.key] <= fs.tree.objs[b.key].loaded
    modifies fs`tree, fs`writes, fs`owed
    ensures fs.Inv() && fs.owed == old(fs.owed) && err in {Ok, Io, Inval} && b.key in fs.tree.objs
    ensures ValidBackstore(b) && b.attrs.Keys <= DefaultAttrs(true).Keys ==> fs.faults || err == Ok
    ensures OnlyObj(old(fs.tree), fs.tree, b.key) && fs.tree.objs[b.key] == old(fs.tree).objs[b.key].(
              enabled := fs.tree.objs[b.key].enabled, attrs := fs.tree.objs[b.key].attrs)
    ensures err == Ok ==> fs.tree.objs[b.key].enabled && Reported(b, fs.tree.objs[b.key], [])
    ensures OneFlag(b) && fs.tree.objs[b.key].buffered == b.buffered ==> WeldedAt(fs.tree, b.key)
    ensures OneFlag(b) && fs.tree.objs[b.key].buffered != b.buffered && err == Ok ==> !WeldedAt(fs.tree, b.key)
  {
    err := fs.OnObj(b.key, Enable);
    if err != Ok { return; }
    err := WriteAttrs(fs, b);
  }

  /** loadAPTPL (lio/backstore.go:386-404): every saved record goes in, or the pass stops here. */
  method LoadAptpl(fs: Configfs, k: Key, records: map<Key, seq<string>>) returns (err: Err)
    requires fs.Inv() && k in fs.tree.objs && !fs.tree.objs[k].enabled
    modifies fs`tree, fs`writes, fs`owed
    ensures fs.Inv() && k in fs.tree.objs && err in {Ok, Io, Inval}
    ensures k in records ==> fs.faults || err == Ok
    ensures OnlyObj(old(fs.tree), fs.tree, k) && fs.tree.objs[k] == old(fs.tree).objs[k].(loaded := fs.tree.objs[k].loaded)
    ensures fs.tree.objs[k].loaded <= old(fs.tree).objs[k].loaded + Given(records, k)
    ensures old(fs.tree).objs[k].loaded <= fs.tree.objs[k].loaded
    ensures err == Ok ==> k in records && k in fs.owed && fs.owed[k] == Given(records, k) <= fs.tree.objs[k].loaded
  {
    if k !in records {
      return Io;
    }
    var recs := records[k];
    fs.owed := fs.owed[k := Given(records, k)];
    for i := 0 to |recs|
      invariant fs.Inv() && k in fs.tree.objs
      invariant OnlyObj(old(fs.tree), fs.tree, k) && fs.tree.objs[k] == old(fs.tree).objs[k].(loaded := fs.tree.objs[k].loaded)
      invariant k in fs.owed && fs.owed[k] == Given(records, k)
      invariant old(fs.tree).objs[k].loaded <= fs.tree.objs[k].loaded <= old(fs.tree).objs[k].loaded + Given(records, k)
      invariant forall r | r in recs[..i] && !Blank(r) :: r in fs.tree.objs[k].loaded
    {
      assert recs[..i + 1] == recs[..i] + [recs[i]];
      if !Blank(recs[i]) {
        err := fs.OnObj(k, Load(recs[i]));
        if err != Ok { return; }
      }
    }
    assert recs[..|recs|] == recs;
    err := Ok;
  }

  /** The attribute writes of the create path, in any order (lio/backstore.go:353-357). */
  method WriteAttrs(fs: Configfs, b: Backstore) returns (err: Err)
    requires fs.Inv() && b.key in fs.tree.objs
    modifies fs`tree, fs`writes, fs`owed
    ensures fs.Inv() && err in {Ok, Io, Inval} && fs.owed == old(fs.owed) && b.key in fs.tree.objs
    ensures ValidBackstore(b) && b.attrs.Keys <= old(fs.tree).objs[b.key].attrs.Keys ==> fs.faults || err == Ok
    ensures OnlyObj(old(fs.tree), fs.tree, b.key) && fs.tree.objs[b.key] == old(fs.tree).objs[b.key].(attrs := fs.tree.objs[b.key].attrs)
    ensures Overlaid(old(fs.tree).objs[b.key].attrs, fs.tree.objs[b.key].attrs, b.attrs)
    ensures err == Ok ==> forall a | a in b.attrs ::
              a in fs.tree.objs[b.key].attrs && fs.tree.objs[b.key].attrs[a] == b.attrs[a]
  {
    ghost var t0, was := fs.tree, fs.tree.objs[b.key];
    ghost var now := was.attrs;
    var rest := b.attrs.Keys;
    err := Ok;
    while rest != {}
      invariant fs.Inv() && fs.owed == old(fs.owed) && rest <= b.attrs.Keys && err == Ok
      invariant OnlyObj(t0, fs.tree, b.key) && fs.tree.objs[b.key] == was.(attrs := now)
      invariant Progress(was.attrs, now, b.attrs, b.attrs, rest)
      decreases rest
    {
      var a :| a in rest;
      err := fs.OnObj(b.key, SetAttr(a, b.attrs[a]));
      if err != Ok { return; }
      ProgressStep(was.attrs, now, fs.tree.objs[b.key].attrs, b.attrs, b.attrs, rest, a, None, true);
      now, rest := now[a := b.attrs[a]], rest - {a};
    }
  }

  /** reconcileBackstoreMutable (lio/backstore.go:709-820): a write the kernel refuses on
      an exported object is recorded as drift, any other failure stops the pass. */
  method ReconcileMutable(fs: Configfs, b: Backstore) returns (err: Err, drift: seq<Drift>)
    requires fs.Inv() && b.key in fs.tree.objs && fs.tree.objs[b.key].enabled && fs.tree.objs[b.key].dev == b.dev
    modifies fs`tree, fs`writes, fs`owed
    ensures fs.Inv() && fs.owed == old(fs.owed) && OnlyObj(old(fs.tree), fs.tree, b.key) && BackstoreErr(err)
    ensures Adjustable(b, old(fs.tree).objs[b.key]) ==> fs.faults || err == Ok
    ensures forall d | d in drift :: d.name == b.key.name && d.live.Some?
    ensures err == Ok ==> Done(b, fs.tree.objs[b.key], drift)
    ensures fs.tree.objs[b.key].loaded == old(fs.tree).objs[b.key].loaded
    ensures Settled(b, old(fs.tree).objs[b.key]) ==> fs.tree == old(fs.tree) && fs.writes == old(fs.writes)
    ensures OneFlag(b) && WeldedAt(old(fs.tree), b.key) ==> WeldedAt(fs.tree, b.key)
  {
    err := fs.Readable(); // the info line: mode and size
    if err != Ok { return err, []; }
    err, drift := ReconcileAttrs(fs, b);
    if err != Ok { return; }
    err := GrowObj(fs, b);
  }

  method ReconcileAttrs(fs: Configfs, b: Backstore) returns (err: Err, drift: seq<Drift>)
    requires fs.Inv() && b.key in fs.tree.objs
    modifies fs`tree, fs`writes, fs`owed
    ensures fs.Inv() && fs.owed == old(fs.owed) && err in {Ok, Io, Inval} && b.key in fs.tree.objs
    ensures Takes(old(fs.tree).objs[b.key].attrs, Constrained(b, old(fs.tree).objs[b.key])) ==> fs.faults || err == Ok
    ensures OnlyObj(old(fs.tree), fs.tree, b.key) && fs.tree.objs[b.key] == old(fs.tree).objs[b.key].(attrs := fs.tree.objs[b.key].attrs)
    ensures Overlaid(old(fs.tree).objs[b.key].attrs, fs.tree.objs[b.key].attrs,
                     Constrained(b, old(fs.tree).objs[b.key]))
    ensures forall d | d in drift :: d.name == b.key.name && d.live.Some?
    ensures err == Ok ==> Reported(b, fs.tree.objs[b.key], drift)
    ensures AtTarget(old(fs.tree).objs[b.key].attrs, Constrained(b, old(fs.tree).objs[b.key])) ==>
              fs.tree == old(fs.tree) && fs.writes == old(fs.writes)
  {
    var want := Constrained(b, fs.tree.objs[b.key]);
    drift := [];
    if want != b.attrs {
      var d := Drift(b.key.name, WriteCache, Some(want[WriteCache]), b.attrs[WriteCache]);
      PatchOne(b.attrs, [], d);
      assert [] + [d] == [d];
      drift := [d];
    }
    err, drift := AttrLoop(fs, b, want, drift);
  }

  /** The loop over the managed attributes, starting from the drift noted so far. */
  method AttrLoop(fs: Configfs, b: Backstore, want: map<Attr, string>, noted: seq<Drift>)
    returns (err: Err, drift: seq<Drift>)
    requires fs.Inv() && b.key in fs.tree.objs
    requires Patch(b.key.name, b.attrs, noted) == want && want.Keys == b.attrs.Keys
    requires forall d | d in noted :: d.name == b.key.name && d.live.Some?
    modifies fs`tree, fs`writes, fs`owed
    ensures fs.Inv() && fs.owed == old(fs.owed) && err in {Ok, Io, Inval} && OnlyObj(old(fs.tree), fs.tree, b.key)
    ensures Takes(old(fs.tree).objs[b.key].attrs, want) ==> fs.faults || err == Ok
    ensures fs.tree.objs[b.key] == old(fs.tree).objs[b.key].(attrs := fs.tree.objs[b.key].attrs)
    ensures Overlaid(old(fs.tree).objs[b.key].attrs, fs.tree.objs[b.key].attrs, want)
    ensures forall d | d in drift :: d.name == b.key.name && d.live.Some?
    ensures err == Ok ==> Reported(b, fs.tree.objs[b.key], drift)
    ensures AtTarget(old(fs.tree).objs[b.key].attrs, want) ==> fs.tree == old(fs.tree) && fs.writes == old(fs.writes)
  {
    drift := noted;
    ghost var t0, was, patch := fs.tree, fs.tree.objs[b.key], want;
    var rest := want.Keys;
    ghost var now := was.attrs;
    while rest != {}
      invariant fs.Inv() && fs.owed == old(fs.owed) && rest <= want.Keys
      invariant AttrsOnly(t0, fs.tree, b.key, now)
      invariant Progress(was.attrs, now, want, patch, rest)
      invariant forall d | d in drift :: d.name == b.key.name && d.live.Some?
      invariant patch == Patch(b.key.name, b.attrs, drift)
      invariant AtTarget(was.attrs, want) ==> fs.tree == t0 && fs.writes == old(fs.writes)
      decreases rest
    {
      var a :| a in rest;
      ghost var t1, refused := fs.tree, None;
      TakesNext(was.attrs, now, want, patch, rest, a);
      err, drift, refused := AttrNext(fs, b, a, want[a], drift);
      AttrsOnlyNext(t0, t1, fs.tree, b.key, now);
      ProgressStep(was.attrs, now, fs.tree.objs[b.key].attrs, want, patch, rest, a, refused, err == Ok);
      now := fs.tree.objs[b.key].attrs;
      if err != Ok { return; }
      patch, rest := Patch(b.key.name, b.attrs, drift), rest - {a};
    }
    err := Ok;
  }

  /** One attribute, and a note of it if the kernel refused it. */
  method AttrNext(fs: Configfs, b: Backstore, a: Attr, want: string, noted: seq<Drift>)
    returns (err: Err, drift: seq<Drift>, ghost refused: Option<string>)
    requires fs.Inv() && b.key in fs.tree.objs && forall d | d in noted :: d.name == b.key.name && d.live.Some?
    modifies fs`tree, fs`writes, fs`owed
    ensures fs.Inv() && fs.owed == old(fs.owed) && err in {Ok, Io, Inval} && OnlyObj(old(fs.tree), fs.tree, b.key)
    ensures Takes(old(fs.tree).objs[b.key].attrs, map[a := want]) ==> fs.faults || err == Ok
    ensures fs.tree.objs[b.key] == old(fs.tree).objs[b.key] || (a in old(fs.tree).objs[b.key].attrs &&
              fs.tree.objs[b.key] == old(fs.tree).objs[b.key].(attrs := old(fs.tree).objs[b.key].attrs[a := want]))
    ensures forall d | d in drift :: d.name == b.key.name && d.live.Some?
    ensures err == Ok ==> a in fs.tree.objs[b.key].attrs
    ensures err == Ok ==> fs.tree.objs[b.key].attrs[a] == (if refused.Some? then refused.value else want)
    ensures err == Ok ==> Patch(b.key.name, b.attrs, drift) == Patched(Patch(b.key.name, b.attrs, noted), a, refused)
    ensures a in old(fs.tree).objs[b.key].attrs && old(fs.tree).objs[b.key].attrs[a] == want ==>
              fs.tree == old(fs.tree) && fs.writes == old(fs.writes)
  {
    drift := noted;
    var live;
    err, live := ReconcileAttr(fs, b.key, a, want);
    refused := live;
    if err == Ok && live.Some? {
      var d := Drift(b.key.name, a, live, want);
      PatchOne(b.attrs, noted, d);
      drift := noted + [d];
    }
  }

  ghost function Patched(patch: map<Attr, string>, a: Attr, refused: Option<string>): map<Attr, string> {
    if refused.Some? then patch[a := refused.value] else patch
  }

  /** Of the objects only one changed, and of that only the attributes. */
  ghost predicate AttrsOnly(t0: Tree, t1: Tree, k: Key, now: map<Attr, string>) {
    AttrsOnlyAt(t0, t1, k, now) == true // carried whole, not clause by clause
  }

  ghost predicate AttrsOnlyAt(t0: Tree, t1: Tree, k: Key, now: map<Attr, string>) {
    k in t0.objs && OnlyObj(t0, t1, k) && k in t1.objs && t1.objs[k] == t0.objs[k].(attrs := now)
  }

  lemma AttrsOnlyNext(t0: Tree, t1: Tree, t2: Tree, k: Key, now: map<Attr, string>)
    requires AttrsOnly(t0, t1, k, now) && OnlyObj(t1, t2, k) && t2.objs[k] == t1.objs[k].(attrs := t2.objs[k].attrs)
    ensures AttrsOnly(t0, t2, k, t2.objs[k].attrs)
  {
  }

  /** How far an attribute loop has come: the keys not in rest are at their patched value. */
  ghost predicate Progress(was: map<Attr, string>, now: map<Attr, string>, want: map<Attr, string>,
                           patch: map<Attr, string>, rest: set<Attr>) {
    && Overlaid(was, now, want) && want.Keys == patch.Keys
    && (forall a | a in want && a !in rest :: a in now && now[a] == patch[a])
    && (forall a | a in want && a in rest :: patch[a] == want[a])
  }

  lemma TakesNext(was: map<Attr, string>, now: map<Attr, string>, want: map<Attr, string>, patch: map<Attr, string>, rest: set<Attr>, a: Attr)
    requires Progress(was, now, want, patch, rest) && a in rest && a in want
    ensures Takes(was, want) ==> Takes(now, map[a := want[a]])
  {
  }

  lemma ProgressStep(was: map<Attr, string>, now: map<Attr, string>, next: map<Attr, string>, want: map<Attr, string>,
                     patch: map<Attr, string>, rest: set<Attr>, a: Attr, refused: Option<string>, ok: bool)
    requires Progress(was, now, want, patch, rest) && a in rest && a in want
    requires next == now || (a in now && next == now[a := want[a]])
    requires ok ==> a in next && next[a] == (if refused.Some? then refused.value else want[a])
    ensures Overlaid(was, next, want)
    ensures ok ==> Progress(was, next, want, if refused.Some? then patch[a := refused.value] else patch, rest - {a})
  {
  }

  lemma PatchOne(attrs: map<Attr, string>, drift: seq<Drift>, d: Drift)
    requires d.live.Some?
    ensures Patch(d.name, attrs, drift + [d]) == Patch(d.name, attrs, drift)[d.attr := d.live.value]
  {
    assert (drift + [d])[..|drift + [d]| - 1] == drift;
  }

  /** One managed attribute (lio/backstore.go:748-774): refused is its live value when the
      kernel would not change it because the object is exported. */
  method ReconcileAttr(fs: Configfs, k: Key, a: Attr, want: string) returns (err: Err, refused: Option<string>)
    requires fs.Inv() && k in fs.tree.objs
    modifies fs`tree, fs`writes, fs`owed
    ensures fs.Inv() && fs.owed == old(fs.owed) && err in {Ok, Io, Inval}
    ensures Takes(old(fs.tree).objs[k].attrs, map[a := want]) ==> fs.faults || err == Ok
    ensures OnlyObj(old(fs.tree), fs.tree, k)
    ensures fs.tree.objs[k] == old(fs.tree).objs[k] || (a in old(fs.tree).objs[k].attrs &&
              fs.tree.objs[k] == old(fs.tree).objs[k].(attrs := old(fs.tree).objs[k].attrs[a := want]))
    ensures err == Ok ==> a in fs.tree.objs[k].attrs
    ensures err == Ok ==> fs.tree.objs[k].attrs[a] == (if refused.Some? then refused.value else want)
    ensures a in old(fs.tree).objs[k].attrs && old(fs.tree).objs[k].attrs[a] == want ==>
              fs.tree == old(fs.tree) && fs.writes == old(fs.writes) && refused == None
  {
    refused := None;
    err := fs.Readable();
    if err != Ok { return; }
    if a !in fs.tree.objs[k].attrs {
      return Io, None;
    }
    var cur := fs.tree.objs[k].attrs[a];
    if cur == want {
      return;
    }
    if !AcceptableAttr(a, want) {
      return Inval, None;
    }
    err := fs.OnObj(k, SetAttr(a, want));
    if err == Inval && Exported(fs.tree, k) {
      return Ok, Some(cur);
    }
  }

  /** The grow-only, block-floored size step (lio/backstore.go:776-818). */
  method GrowObj(fs: Configfs, b: Backstore) returns (err: Err)
    requires fs.Inv() && b.key in fs.tree.objs
    modifies fs`tree, fs`writes, fs`owed
    ensures fs.Inv() && fs.owed == old(fs.owed) && BackstoreErr(err) && b.key in fs.tree.objs
    ensures SizeServed(b, old(fs.tree).objs[b.key]) || (b.size >= old(fs.tree).objs[b.key].size && b.size % BlockSizeOf(b) == 0) ==> fs.faults || err == Ok
    ensures OnlyObj(old(fs.tree), fs.tree, b.key) && fs.tree.objs[b.key] == old(fs.tree).objs[b.key].(size := fs.tree.objs[b.key].size)
    ensures err == Ok ==> SizeServed(b, fs.tree.objs[b.key])
    ensures SizeServed(b, old(fs.tree).objs[b.key]) ==> fs.tree == old(fs.tree) && fs.writes == old(fs.writes)
  {
    err := Ok;
    var o := fs.tree.objs[b.key];
    if SizeServed(b, o) {
      return;
    }
    if b.size < o.size {
      return Incompatible;
    }
    if b.size % BlockSizeOf(b) != 0 {
      return Invalid;
    }
    err := fs.OnObj(b.key, Control(b.size, false));
  }

  /** What b becomes when the write-back setting is turned off. */
  function WriteThrough(b: Backstore): Backstore { b.(buffered := false, attrs := b.attrs[WriteCache := "0"]) }

  /** The failure that StaleMode names.  A create with write-back on stops half way, the setting is
      turned off, and the next pass finishes the object: the mode sticks, and the write cache is
      claimed to be off. */
  method StickyMode(b: Backstore, records: map<Key, seq<string>>, misreads: nat -> bool) returns (fs: Configfs, stuck: bool)
    requires OneFlag(b) && b.buffered
    ensures var off := WriteThrough(b); OneFlag(off) && (stuck ==> off.key in fs.tree.objs && fs.tree.objs[off.key].enabled && !Welded(fs.tree.objs[off.key]))
  {
    fs := new Configfs(EMPTY_TREE, true, misreads);
    var off := WriteThrough(b);
    var err, drift := EnsureBackstore(fs, b, records);
    stuck := err != Ok && StaleMode(fs.tree, off);
    if stuck {
      err, drift := EnsureBackstore(fs, off, records);
      stuck := err == Ok;
    }
  }
}
