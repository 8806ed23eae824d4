/** What a reconcile remembers of the live tree: VerifyDrift (lio/backstore.go:1105-1142) and
    appliedView (appliance/translate.go:387-421). */
module AppliedView {
  import opened LioConfig
  import opened Kernel
  import opened Topology
  import opened Backstores
  import opened Ensure
  import opened Apply
  import opened Sync
  import opened Diff
  import opened Incremental

  // ----- the view -----

  function View(c: Config, drift: seq<Drift>): (v: Config)
    ensures v.targets == c.targets && |v.backstores| == |c.backstores|
    ensures forall i | 0 <= i < |c.backstores| ::
              v.backstores[i] == c.backstores[i].(attrs := Patch(c.backstores[i].key.name, c.backstores[i].attrs, drift))
  {
    c.(backstores := seq(|c.backstores|, i requires 0 <= i < |c.backstores| =>
      c.backstores[i].(attrs := Patch(c.backstores[i].key.name, c.backstores[i].attrs, drift))))
  }

  function LiveOf(live: map<string, map<Attr, string>>, name: string): map<Attr, string> {
    if name in live then live[name] else map[]
  }

  ghost predicate Collected(live: map<string, map<Attr, string>>, drift: seq<Drift>) {
    forall name, attrs: map<Attr, string> :: attrs + LiveOf(live, name) == Patch(name, attrs, drift)
  }

  /** appliedView: a drifted attribute goes back to its live value; one that could not be
      read is left as desired. */
  method MakeView(c: Config, drift: seq<Drift>) returns (v: Config)
    ensures v == View(c, drift)
  {
    var live: map<string, map<Attr, string>> := map[];
    for i := 0 to |drift|
      invariant Collected(live, drift[..i])
    {
      var d := drift[i];
      CollectNext(live, drift, i);
      if d.live.Some? {
        live := live[d.name := LiveOf(live, d.name)[d.attr := d.live.value]];
      }
    }
    assert drift[..|drift|] == drift;
    var out := [];
    for i := 0 to |c.backstores|
      invariant |out| == i
      invariant forall j | 0 <= j < i :: out[j] == View(c, drift).backstores[j]
    {
      var b := c.backstores[i];
      assert b.attrs + LiveOf(live, b.key.name) == Patch(b.key.name, b.attrs, drift);
      out := out + [if b.key.name in live then b.(attrs := b.attrs + live[b.key.name]) else b];
    }
    v := c.(backstores := out);
  }

  lemma CollectNext(live: map<string, map<Attr, string>>, drift: seq<Drift>, i: nat)
    requires i < |drift| && Collected(live, drift[..i])
    ensures var d := drift[i];
            Collected(if d.live.Some? then live[d.name := LiveOf(live, d.name)[d.attr := d.live.value]] else live, drift[..i + 1])
  {
    var d := drift[i];
    assert drift[..i + 1][..i] == drift[..i];
    var next := if d.live.Some? then live[d.name := LiveOf(live, d.name)[d.attr := d.live.value]] else live;
    forall name, attrs: map<Attr, string>
      ensures attrs + LiveOf(next, name) == Patch(name, attrs, drift[..i + 1])
    {
      assert attrs + LiveOf(live, name) == Patch(name, attrs, drift[..i]);
    }
  }

  // ----- what it claims -----

  /** A managed attribute is live at the value the config states. */
  ghost predicate LiveAt(objs: map<Key, Obj>, b: Backstore, a: Attr) {
    b.key in objs && a in objs[b.key].attrs && a in b.attrs && objs[b.key].attrs[a] == b.attrs[a]
  }

  /** Every managed attribute is, but for those missed. */
  ghost predicate AttrsBut(objs: map<Key, Obj>, bs: seq<Backstore>, missed: set<(string, Attr)>) {
    forall b, a | b in bs && a in b.attrs && (b.key.name, a) !in missed :: LiveAt(objs, b, a)
  }

  /** Every managed attribute is there to be read. */
  ghost predicate AllThere(objs: map<Key, Obj>, b: Backstore) {
    b.key in objs && b.attrs.Keys <= objs[b.key].attrs.Keys
  }

  ghost predicate AttrsThere(objs: map<Key, Obj>, bs: seq<Backstore>) {
    forall b | b in bs :: AllThere(objs, b)
  }

  /** Every backstore is enabled on its device, at its size. */
  ghost predicate Served(objs: map<Key, Obj>, bs: seq<Backstore>) {
    forall b | b in bs :: b.key in objs && objs[b.key].enabled && objs[b.key].dev == b.dev && SizeServed(b, objs[b.key])
  }

  ghost predicate SameButAttrs(c: Config, v: Config) {
    && v.targets == c.targets && |v.backstores| == |c.backstores|
    && forall i | 0 <= i < |c.backstores| :: v.backstores[i] == c.backstores[i].(attrs := v.backstores[i].attrs)
  }

  /** The view of what was asked for describes the live tree: its topology, devices and sizes,
      and every attribute but those missed. */
  ghost predicate Describes(t: Tree, asked: Config, v: Config, missed: set<(string, Attr)>) {
    && Realised(t, v) && SameButAttrs(asked, v) && Served(t.objs, asked.backstores)
    && AttrsBut(t.objs, v.backstores, missed) && AttrsThere(t.objs, v.backstores)
  }

  lemma ViewNames(c: Config, drift: seq<Drift>)
    ensures KeyMap(View(c, drift).backstores) == KeyMap(c.backstores)
    ensures Keys(View(c, drift).backstores) == Keys(c.backstores)
    ensures Names(View(c, drift).backstores) == Names(c.backstores)
  {
    var v := View(c, drift);
    KeyMapSame(c.backstores, v.backstores);
    forall b | b in c.backstores ensures b.key in Keys(v.backstores) && b.key.name in Names(v.backstores) {
      var i :| 0 <= i < |c.backstores| && c.backstores[i] == b;
      assert v.backstores[i] in v.backstores;
    }
    forall b | b in v.backstores ensures b.key in Keys(c.backstores) && b.key.name in Names(c.backstores) {
      var i :| 0 <= i < |v.backstores| && v.backstores[i] == b;
      assert c.backstores[i] in c.backstores;
    }
  }

  lemma ViewTopology(t: Tree, c: Config, drift: seq<Drift>)
    ensures Realised(t, View(c, drift)) <==> Realised(t, c)
  {
    ViewNames(c, drift);
  }

  /** A view of a valid config whose block sizes are legal is valid, so it can be diffed against. */
  lemma ViewValid(c: Config, drift: seq<Drift>)
    requires Valid(c)
    requires forall b | b in View(c, drift).backstores && BlockSize in b.attrs :: ValidBlockSize(b.attrs[BlockSize])
    ensures Valid(View(c, drift))
  {
    ViewNames(c, drift);
    var v := View(c, drift);
    forall b | b in v.backstores ensures ValidBackstore(b) {
      var i :| 0 <= i < |v.backstores| && v.backstores[i] == b;
      assert c.backstores[i] in c.backstores;
    }
  }

  // ----- after a full reconcile -----

  /** A Sync reports every attribute it left behind, so its view misses nothing. */
  lemma FullViewDescribes(t: Tree, c: Config, drift: seq<Drift>)
    requires Realised(t, c) && BackstoresDone(t.objs, c.backstores, drift)
    ensures Describes(t, c, View(c, drift), {})
  {
    ViewTopology(t, c, drift);
    var v := View(c, drift);
    forall b | b in v.backstores ensures AllThere(t.objs, b) && forall a | a in b.attrs :: LiveAt(t.objs, b, a) {
      var i :| 0 <= i < |v.backstores| && v.backstores[i] == b;
      assert c.backstores[i] in c.backstores;
    }
  }

  // ----- VerifyDrift -----

  /** What one backstore's attributes are recorded as: live where read, desired where not. */
  ghost predicate Recorded(b: Backstore, o: Obj, drift: seq<Drift>, unread: set<Attr>) {
    && Patch(b.key.name, b.attrs, drift).Keys == b.attrs.Keys
    && forall a | a in b.attrs ::
         if a in unread then Patch(b.key.name, b.attrs, drift)[a] == b.attrs[a]
         else a in o.attrs && Patch(b.key.name, b.attrs, drift)[a] == o.attrs[a]
  }

  function NoteOf(b: Backstore, o: Obj, a: Attr, read: bool): (note: seq<Drift>)
    requires a in b.attrs && (read ==> a in o.attrs)
    ensures forall d | d in note :: d.name == b.key.name
  {
    if !read then [Drift(b.key.name, a, None, b.attrs[a])]
    else if o.attrs[a] == b.attrs[a] then []
    else [Drift(b.key.name, a, Some(o.attrs[a]), b.attrs[a])]
  }

  /** One attribute: read and equal, read and noted, or not read. */
  lemma RecordNext(b: Backstore, o: Obj, before: seq<Drift>, drift: seq<Drift>, unread: set<Attr>, rest: set<Attr>, a: Attr, read: bool)
    requires Recorded(b, o, before, unread + rest) && a in rest && a !in unread && a in b.attrs && (read ==> a in o.attrs)
    requires drift == before + NoteOf(b, o, a, read)
    ensures Recorded(b, o, drift, (if read then unread else unread + {a}) + (rest - {a}))
  {
    if drift != before {
      PatchAppend(b.key.name, b.attrs, before, drift[|drift| - 1]);
    }
  }

  /** One attribute, read back. */
  method DriftIn(fs: Configfs, b: Backstore, a: Attr) returns (read: bool, note: seq<Drift>)
    requires b.key in fs.tree.objs && a in b.attrs
    modifies fs`looks
    ensures fs.looks == old(fs.looks) + 1
    ensures read <==> a in fs.tree.objs[b.key].attrs && !fs.misreads(old(fs.looks))
    ensures note == NoteOf(b, fs.tree.objs[b.key], a, read)
  {
    var o := fs.tree.objs[b.key];
    var err := fs.ReadBack(a in o.attrs);
    read := err == Ok;
    note := NoteOf(b, o, a, read);
  }

  /** The attribute loop for one backstore (lio/backstore.go:1129-1139). */
  method DriftOf(fs: Configfs, b: Backstore) returns (drift: seq<Drift>, unread: set<Attr>)
    requires b.key in fs.tree.objs
    modifies fs`looks
    ensures fs.looks >= old(fs.looks)
    ensures ReadWell(fs.misreads, old(fs.looks), fs.looks) && AllThere(fs.tree.objs, b) ==> unread == {}
    ensures Recorded(b, fs.tree.objs[b.key], drift, unread) && unread <= b.attrs.Keys
    ensures forall d | d in drift :: d.name == b.key.name
  {
    drift, unread := [], {};
    var o := fs.tree.objs[b.key];
    var rest := b.attrs.Keys;
    while rest != {}
      invariant rest <= b.attrs.Keys && unread <= b.attrs.Keys && unread !! rest
      invariant forall d | d in drift :: d.name == b.key.name
      invariant Recorded(b, o, drift, unread + rest)
      invariant fs.looks >= old(fs.looks)
      invariant ReadWell(fs.misreads, old(fs.looks), fs.looks) && AllThere(fs.tree.objs, b) ==> unread == {}
      decreases rest
    {
      var a :| a in rest;
      var read, note := DriftIn(fs, b, a);
      RecordNext(b, o, drift, drift + note, unread, rest, a, read);
      drift, rest := drift + note, rest - {a};
      unread := if read then unread else unread + {a};
    }
    assert unread + rest == unread;
  }

  lemma PatchAppend(name: string, attrs: map<Attr, string>, drift: seq<Drift>, d: Drift)
    ensures Patch(name, attrs, drift + [d]) ==
            if d.name == name && d.live.Some? then Patch(name, attrs, drift)[d.attr := d.live.value] else Patch(name, attrs, drift)
  {
    assert (drift + [d])[..|drift|] == drift;
  }

  lemma RecordedKeeps(b: Backstore, o: Obj, drift: seq<Drift>, more: seq<Drift>, unread: set<Attr>)
    requires Recorded(b, o, drift, unread) && forall d | d in more :: d.name != b.key.name
    ensures Recorded(b, o, drift + more, unread)
  {
    PatchKeeps(b.key.name, b.attrs, drift, more);
  }

  lemma RecordedAfter(b: Backstore, o: Obj, before: seq<Drift>, drift: seq<Drift>, unread: set<Attr>)
    requires Recorded(b, o, drift, unread) && forall d | d in before :: d.name != b.key.name
    ensures Recorded(b, o, before + drift, unread)
  {
    PatchSkips(b.key.name, b.attrs, before, drift);
  }

  /** Each backstore of the list is recorded, unread telling which attributes were not read. */
  ghost predicate AllRecorded(objs: map<Key, Obj>, bs: seq<Backstore>, drift: seq<Drift>, unread: map<string, set<Attr>>) {
    && (forall b | b in bs :: b.key.name in unread && b.key in objs && Recorded(b, objs[b.key], drift, unread[b.key.name]))
    && (forall d | d in drift :: d.name in Names(bs))
  }

  lemma AllRecordedNext(objs: map<Key, Obj>, bs: seq<Backstore>, i: nat, drift: seq<Drift>, unread: map<string, set<Attr>>,
                        more: seq<Drift>, missed: set<Attr>)
    requires i < |bs| && ValidBackstoreNames(bs) && AllRecorded(objs, bs[..i], drift, unread)
    requires bs[i].key in objs && Recorded(bs[i], objs[bs[i].key], more, missed)
    requires forall d | d in more :: d.name == bs[i].key.name
    ensures AllRecorded(objs, bs[..i + 1], drift + more, unread[bs[i].key.name := missed])
  {
    assert bs[..i + 1] == bs[..i] + [bs[i]];
    forall b | b in bs[..i]
      ensures b.key.name != bs[i].key.name && Recorded(b, objs[b.key], drift + more, unread[b.key.name])
    {
      RecordedKeeps(b, objs[b.key], drift, more, unread[b.key.name]);
    }
    forall d | d in drift ensures d.name != bs[i].key.name {
      var b :| b in bs[..i] && b.key.name == d.name;
    }
    RecordedAfter(bs[i], objs[bs[i].key], drift, more, missed);
  }

  /** A backstore about which nothing was read. */
  lemma NothingRecorded(b: Backstore, o: Obj)
    ensures Recorded(b, o, [], b.attrs.Keys) && Recorded(b, o, [Drift(b.key.name, Other(""), None, "")], b.attrs.Keys)
  {
    var d := Drift(b.key.name, Other(""), None, "");
    PatchAppend(b.key.name, b.attrs, [], d);
    assert [] + [d] == [d];
  }

  /** One backstore of VerifyDrift: one that cannot be examined, or is not exported, is left
      out, as if every attribute were at its desired value (lio/backstore.go:1110-1128). */
  method DriftAt(fs: Configfs, b: Backstore, walked: bool) returns (drift: seq<Drift>, unread: set<Attr>)
    requires b.key in fs.tree.objs
    modifies fs`looks
    ensures fs.looks >= old(fs.looks)
    ensures walked && ReadWell(fs.misreads, old(fs.looks), fs.looks) && Exported(fs.tree, b.key) && AllThere(fs.tree.objs, b) ==> unread == {}
    ensures Recorded(b, fs.tree.objs[b.key], drift, unread) && unread <= b.attrs.Keys
    ensures forall d | d in drift :: d.name == b.key.name
  {
    NothingRecorded(b, fs.tree.objs[b.key]);
    var err := fs.ReadBack(true);
    if !walked || err != Ok {
      drift, unread := [Drift(b.key.name, Other(""), None, "")], b.attrs.Keys;
    } else if !Exported(fs.tree, b.key) {
      drift, unread := [], b.attrs.Keys;
    } else {
      drift, unread := DriftOf(fs, b);
    }
  }

  ghost predicate AllExported(t: Tree, bs: seq<Backstore>) {
    forall b | b in bs :: Exported(t, b.key)
  }

  /** Everything the config exports was read. */
  ghost predicate AllSeen(t: Tree, bs: seq<Backstore>, unread: map<string, set<Attr>>) {
    forall b | b in bs && Exported(t, b.key) && AllThere(t.objs, b) :: b.key.name in unread && unread[b.key.name] == {}
  }

  /** VerifyDrift, on a tree that holds every backstore of the config. */
  method VerifyDrift(fs: Configfs, c: Config) returns (drift: seq<Drift>, unread: map<string, set<Attr>>)
    requires ValidBackstoreNames(c.backstores) && forall b | b in c.backstores :: b.key in fs.tree.objs
    modifies fs`looks
    ensures AllRecorded(fs.tree.objs, c.backstores, drift, unread)
    ensures fs.looks >= old(fs.looks)
    ensures ReadWell(fs.misreads, old(fs.looks), fs.looks) ==> AllSeen(fs.tree, c.backstores, unread)
  {
    drift, unread := [], map[];
    var err := fs.ReadBack(true); // the walk over every LUN
    for i := 0 to |c.backstores|
      invariant AllRecorded(fs.tree.objs, c.backstores[..i], drift, unread)
      invariant fs.looks >= old(fs.looks) && (ReadWell(fs.misreads, old(fs.looks), fs.looks) ==> err == Ok)
      invariant ReadWell(fs.misreads, old(fs.looks), fs.looks) ==> AllSeen(fs.tree, c.backstores[..i], unread)
    {
      assert c.backstores[i] in c.backstores;
      var more, missed := DriftAt(fs, c.backstores[i], err == Ok);
      AllRecordedNext(fs.tree.objs, c.backstores, i, drift, unread, more, missed);
      AllSeenNext(fs.tree, c.backstores, i, unread, missed);
      drift, unread := drift + more, unread[c.backstores[i].key.name := missed];
    }
    assert c.backstores[..|c.backstores|] == c.backstores;
  }

  lemma AllSeenNext(t: Tree, bs: seq<Backstore>, i: nat, unread: map<string, set<Attr>>, missed: set<Attr>)
    requires i < |bs| && ValidBackstoreNames(bs)
    ensures AllSeen(t, bs[..i], unread) && (Exported(t, bs[i].key) && AllThere(t.objs, bs[i]) ==> missed == {}) ==>
              AllSeen(t, bs[..i + 1], unread[bs[i].key.name := missed])
  {
    assert bs[..i + 1] == bs[..i] + [bs[i]];
    forall b | b in bs[..i] ensures b.key.name != bs[i].key.name {
    }
  }

  // ----- after an incremental reconcile -----

  /** No managed attribute went unread. */
  ghost predicate AllRead(bs: seq<Backstore>, unread: map<string, set<Attr>>) {
    forall b, a | b in bs && a in b.attrs && b.key.name in unread :: a !in unread[b.key.name]
  }

  /** The readings alone settle whether the view describes the live attributes exactly when
      nothing went unread: otherwise some tree that reads the same is not as the view says. */
  lemma ReadingsSettle(t: Tree, c: Config, drift: seq<Drift>, unread: map<string, set<Attr>>)
    requires Valid(c) && Realised(t, c) && AllRecorded(t.objs, c.backstores, drift, unread)
    ensures AllRead(c.backstores, unread) <==>
              forall t' | Realised(t', c) && AllRecorded(t'.objs, c.backstores, drift, unread) :: AttrsBut(t'.objs, View(c, drift).backstores, {})
  {
    if AllRead(c.backstores, unread) {
      forall t' | Realised(t', c) && AllRecorded(t'.objs, c.backstores, drift, unread)
        ensures AttrsBut(t'.objs, View(c, drift).backstores, {})
      {
        ReadDescribes(t'.objs, c, drift, unread);
      }
    } else {
      var b, a :| b in c.backstores && a in b.attrs && a in unread[b.key.name];
      var t' := Altered(t, c, drift, unread, b, a);
    }
  }

  lemma ReadDescribes(objs: map<Key, Obj>, c: Config, drift: seq<Drift>, unread: map<string, set<Attr>>)
    requires AllRecorded(objs, c.backstores, drift, unread) && AllRead(c.backstores, unread)
    ensures AttrsBut(objs, View(c, drift).backstores, {})
  {
    var v := View(c, drift);
    forall b, a | b in v.backstores && a in b.attrs ensures LiveAt(objs, b, a) {
      var i :| 0 <= i < |v.backstores| && v.backstores[i] == b;
      assert c.backstores[i] in c.backstores;
    }
  }

  /** An attribute that went unread may be at any value. */
  lemma Altered(t: Tree, c: Config, drift: seq<Drift>, unread: map<string, set<Attr>>, b: Backstore, a: Attr) returns (t': Tree)
    requires Valid(c) && Realised(t, c) && AllRecorded(t.objs, c.backstores, drift, unread)
    requires b in c.backstores && a in b.attrs && a in unread[b.key.name]
    ensures Realised(t', c) && AllRecorded(t'.objs, c.backstores, drift, unread) && !AttrsBut(t'.objs, View(c, drift).backstores, {})
  {
    var o := t.objs[b.key];
    t' := t.(objs := t.objs[b.key := o.(attrs := o.attrs[a := b.attrs[a] + "?"])]);
    assert t'.objs.Keys == t.objs.Keys && t'.nodes == t.nodes && t'.targets == t.targets;
    AlteredRecorded(t.objs, t'.objs, c, drift, unread, b, a);
    UnreadView(t'.objs, c, drift, unread, b, a);
  }

  lemma AlteredRecorded(objs: map<Key, Obj>, objs': map<Key, Obj>, c: Config, drift: seq<Drift>, unread: map<string, set<Attr>>, b: Backstore, a: Attr)
    requires ValidBackstoreNames(c.backstores) && AllRecorded(objs, c.backstores, drift, unread) && objs'.Keys == objs.Keys
    requires b in c.backstores && a in unread[b.key.name] && forall k | k in objs && k != b.key :: objs'[k] == objs[k]
    requires forall x | x in objs[b.key].attrs && x != a :: x in objs'[b.key].attrs && objs'[b.key].attrs[x] == objs[b.key].attrs[x]
    ensures AllRecorded(objs', c.backstores, drift, unread)
  {
    forall x | x in c.backstores ensures Recorded(x, objs'[x.key], drift, unread[x.key.name]) {
      assert Recorded(x, objs[x.key], drift, unread[x.key.name]);
      if x.key == b.key {
        KeyUnique(c.backstores, NameKey, x, b);
      }
    }
  }

  /** The view shows an attribute that went unread at its desired value. */
  lemma UnreadView(objs: map<Key, Obj>, c: Config, drift: seq<Drift>, unread: map<string, set<Attr>>, b: Backstore, a: Attr)
    requires AllRecorded(objs, c.backstores, drift, unread) && b in c.backstores && a in b.attrs && a in unread[b.key.name]
    ensures !LiveAt(objs, b, a) ==> !AttrsBut(objs, View(c, drift).backstores, {})
  {
    var i :| 0 <= i < |c.backstores| && c.backstores[i] == b;
    assert Recorded(b, objs[b.key], drift, unread[b.key.name]);
    var w := View(c, drift).backstores[i];
    assert w in View(c, drift).backstores && w.key == b.key && a in w.attrs && w.attrs[a] == b.attrs[a];
    assert LiveAt(objs, w, a) <==> LiveAt(objs, b, a);
  }

  /** A pass left the attribute at a value that is not the desired one. */
  ghost predicate Refused(b: Backstore, a: Attr, refused: seq<Drift>) {
    var now := Patch(b.key.name, b.attrs, refused);
    a in now && a in b.attrs && now[a] != b.attrs[a]
  }

  /** What slips through an incremental pass: attributes that could not be read back after the
      pass was refused them, or that had slipped through before and were not tried again. */
  ghost function Slipped(next: Config, d: Delta, refused: seq<Drift>, unread: map<string, set<Attr>>, missed: set<(string, Attr)>)
    : set<(string, Attr)>
  {
    set b, a | b in next.backstores && a in b.attrs && SlippedAt(b, a, d, refused, unread, missed) :: (b.key.name, a)
  }

  ghost predicate SlippedAt(b: Backstore, a: Attr, d: Delta, refused: seq<Drift>, unread: map<string, set<Attr>>, missed: set<(string, Attr)>) {
    && b.key.name in unread && a in unread[b.key.name]
    && if b in d.add.backstores then Refused(b, a, refused) else (b.key.name, a) in missed
  }

  /** What an incremental pass has done to the objects. */
  ghost predicate Passed(t0: Tree, t1: Tree, prev: Config, next: Config, d: Delta, refused: seq<Drift>) {
    && ValidBackstoreNames(next.backstores) && AddsBackstores(prev, next, d.add) && OthersAsWere(t0, t1, prev, next, d)
    && BackstoresDone(t1.objs, d.add.backstores, refused)
  }

  /** A backstore the pass had no reason to visit is as it was. */
  lemma NotVisited(t0: Tree, t1: Tree, prev: Config, next: Config, d: Delta, refused: seq<Drift>, b: Backstore)
    requires Passed(t0, t1, prev, next, d, refused) && b in next.backstores && b !in d.add.backstores && b.key in t0.objs
    ensures b in prev.backstores && b.key in t1.objs && t1.objs[b.key] == t0.objs[b.key]
  {
    forall x | x in d.add.backstores ensures x.key != b.key {
      if x.key == b.key {
        KeyUnique(next.backstores, NameKey, x, b);
      }
    }
  }

  /** No backstore asked for again has another block size. */
  ghost predicate SteadyBlocks(was: seq<Backstore>, now: seq<Backstore>) {
    forall x, b | x in was && b in now && x.key == b.key :: BlockSizeOf(x) == BlockSizeOf(b)
  }

  lemma DeltaServes(t0: Tree, t1: Tree, asked: Config, prev: Config, next: Config, d: Delta, refused: seq<Drift>, missed: set<(string, Attr)>)
    requires Passed(t0, t1, prev, next, d, refused) && Describes(t0, asked, prev, missed) && SteadyBlocks(asked.backstores, next.backstores)
    ensures Served(t1.objs, next.backstores)
  {
    forall b | b in next.backstores && b !in d.add.backstores
      ensures b.key in t1.objs && t1.objs[b.key].enabled && t1.objs[b.key].dev == b.dev && SizeServed(b, t1.objs[b.key])
    {
      assert b in prev.backstores;
      var i :| 0 <= i < |prev.backstores| && prev.backstores[i] == b;
      var x := asked.backstores[i];
      assert x in asked.backstores;
      NotVisited(t0, t1, prev, next, d, refused, b);
    }
  }

  lemma DeltaThere(t0: Tree, t1: Tree, asked: Config, prev: Config, next: Config, d: Delta, refused: seq<Drift>, missed: set<(string, Attr)>)
    requires Passed(t0, t1, prev, next, d, refused) && Describes(t0, asked, prev, missed)
    ensures AttrsThere(t1.objs, next.backstores)
  {
    forall b | b in next.backstores && b !in d.add.backstores ensures AllThere(t1.objs, b) {
      assert b in prev.backstores;
      assert AllThere(t0.objs, b);
      NotVisited(t0, t1, prev, next, d, refused, b);
    }
  }

  lemma ViewThere(objs: map<Key, Obj>, c: Config, drift: seq<Drift>, unread: map<string, set<Attr>>)
    requires AllRecorded(objs, c.backstores, drift, unread) && AttrsThere(objs, c.backstores)
    ensures AttrsThere(objs, View(c, drift).backstores)
  {
    var v := View(c, drift);
    forall w | w in v.backstores ensures AllThere(objs, w) {
      var i :| 0 <= i < |v.backstores| && v.backstores[i] == w;
      assert Recorded(c.backstores[i], objs[c.backstores[i].key], drift, unread[c.backstores[i].key.name]);
      assert AllThere(objs, c.backstores[i]);
    }
  }

  /** What the tree holds of an attribute that was not read back. */
  lemma UnreadAt(t0: Tree, t1: Tree, asked: Config, prev: Config, next: Config, d: Delta, refused: seq<Drift>, unread: map<string, set<Attr>>,
                 missed: set<(string, Attr)>, b: Backstore, a: Attr)
    requires Passed(t0, t1, prev, next, d, refused) && Describes(t0, asked, prev, missed)
    requires b in next.backstores && a in b.attrs && b.key.name in unread && a in unread[b.key.name]
    ensures !SlippedAt(b, a, d, refused, unread, missed) ==> LiveAt(t1.objs, b, a)
    ensures b in d.add.backstores && SlippedAt(b, a, d, refused, unread, missed) ==> !LiveAt(t1.objs, b, a)
  {
    if b !in d.add.backstores && (b.key.name, a) !in missed {
      assert b in prev.backstores;
      assert LiveAt(t0.objs, b, a);
      NotVisited(t0, t1, prev, next, d, refused, b);
    }
  }

  /** The incremental view describes the live tree but for what slipped through; from a view that
      missed nothing, it does so entirely exactly when no attribute that was refused went unread. */
  lemma DeltaViewDescribes(t0: Tree, t1: Tree, asked: Config, prev: Config, next: Config, d: Delta, refused: seq<Drift>,
                           drift: seq<Drift>, unread: map<string, set<Attr>>, missed: set<(string, Attr)>)
    requires Passed(t0, t1, prev, next, d, refused) && Describes(t0, asked, prev, missed) && SteadyBlocks(asked.backstores, next.backstores)
    requires Realised(t1, next) && AllRecorded(t1.objs, next.backstores, drift, unread)
    ensures Describes(t1, next, View(next, drift), Slipped(next, d, refused, unread, missed))
    ensures missed == {} ==> (Describes(t1, next, View(next, drift), {}) <==> Slipped(next, d, refused, unread, missed) == {})
  {
    ViewTopology(t1, next, drift);
    DeltaServes(t0, t1, asked, prev, next, d, refused, missed);
    DeltaThere(t0, t1, asked, prev, next, d, refused, missed);
    ViewThere(t1.objs, next, drift, unread);
    DeltaAttrs(t0, t1, asked, prev, next, d, refused, drift, unread, missed);
    if missed == {} && Slipped(next, d, refused, unread, missed) != {} {
      SlippedShows(t0, t1, asked, prev, next, d, refused, drift, unread);
    }
  }

  lemma DeltaAttrs(t0: Tree, t1: Tree, asked: Config, prev: Config, next: Config, d: Delta, refused: seq<Drift>,
                   drift: seq<Drift>, unread: map<string, set<Attr>>, missed: set<(string, Attr)>)
    requires Passed(t0, t1, prev, next, d, refused) && Describes(t0, asked, prev, missed)
    requires AllRecorded(t1.objs, next.backstores, drift, unread)
    ensures AttrsBut(t1.objs, View(next, drift).backstores, Slipped(next, d, refused, unread, missed))
  {
    var v := View(next, drift);
    forall w, a | w in v.backstores && a in w.attrs && (w.key.name, a) !in Slipped(next, d, refused, unread, missed) ensures LiveAt(t1.objs, w, a) {
      var i :| 0 <= i < |v.backstores| && v.backstores[i] == w;
      var b := next.backstores[i];
      assert b in next.backstores;
      assert Recorded(b, t1.objs[b.key], drift, unread[b.key.name]);
      if a in unread[b.key.name] {
        UnreadAt(t0, t1, asked, prev, next, d, refused, unread, missed, b, a);
      }
    }
  }

  lemma SlippedShows(t0: Tree, t1: Tree, asked: Config, prev: Config, next: Config, d: Delta, refused: seq<Drift>,
                     drift: seq<Drift>, unread: map<string, set<Attr>>)
    requires Passed(t0, t1, prev, next, d, refused) && Describes(t0, asked, prev, {})
    requires AllRecorded(t1.objs, next.backstores, drift, unread) && Slipped(next, d, refused, unread, {}) != {}
    ensures !AttrsBut(t1.objs, View(next, drift).backstores, {})
  {
    var x :| x in Slipped(next, d, refused, unread, {});
    var b, a :| b in next.backstores && a in b.attrs && SlippedAt(b, a, d, refused, unread, {}) && x == (b.key.name, a);
    UnreadAt(t0, t1, asked, prev, next, d, refused, unread, {}, b, a);
    UnreadView(t1.objs, next, drift, unread, b, a);
  }

  /** With every backstore exported and every read good, nothing slips through. */
  lemma NothingSlips(t: Tree, next: Config, d: Delta, refused: seq<Drift>, unread: map<string, set<Attr>>, missed: set<(string, Attr)>)
    requires AllSeen(t, next.backstores, unread) && AllExported(t, next.backstores) && AttrsThere(t.objs, next.backstores)
    ensures Slipped(next, d, refused, unread, missed) == {}
  {
  }

  /** A known drift keeps its backstore in the delta of every later pass that still wants it. */
  lemma KnownDriftRevisited(c: Config, drift: seq<Drift>, objs: map<Key, Obj>, unread: map<string, set<Attr>>,
                            next: Config, d: Delta, b: Backstore, a: Attr)
    requires ValidBackstoreNames(c.backstores) && AllRecorded(objs, c.backstores, drift, unread)
    requires b in c.backstores && a in b.attrs && a !in unread[b.key.name] && objs[b.key].attrs[a] != b.attrs[a]
    requires b in next.backstores && AddsBackstores(View(c, drift), next, d.add)
    ensures b in d.add.backstores
  {
    var v := View(c, drift).backstores;
    forall j | 0 <= j < |v| ensures v[j] != b {
      if c.backstores[j].key.name == b.key.name {
        KeyUnique(c.backstores, NameKey, c.backstores[j], b);
        assert v[j].attrs[a] == objs[b.key].attrs[a];
      }
    }
  }

  /** One exported volume, its preferred transfer size as given. */
  function OneVolume(opt: string): Config {
    var b := Backstore(Key(FileIO, 0, "v"), "d", 0, "", false, map[OptimalSectors := opt]);
    Config([b], [Target("iqn.t", [TPG(1, true, [], [LUN(0, "v")], [], map[])])])
  }

  function OneTree(): Tree {
    var k := Key(FileIO, 0, "v");
    Tree(map[k := Obj(true, "d", 0, false, map[OptimalSectors := "16384"], {})], {"iqn.t"},
         map[Path("iqn.t", 1) := Node(true, {}, map[0 := Some(k)], map[])])
  }

  lemma OneVolumeValid(opt: string)
    ensures Valid(OneVolume(opt))
  {
    var c := OneVolume(opt);
    assert c.backstores[0] in c.backstores;
    assert ValidTpg(c.targets[0].tpgs[0], Names(c.backstores));
  }

  lemma OneTreeStands()
    ensures WellFormed(OneTree()) && LinksEnabled(OneTree()) && Geometry(OneTree().objs)
  {
  }

  lemma OneTreeHolds()
    ensures Describes(OneTree(), OneVolume("16384"), OneVolume("16384"), {})
  {
    OneTreeRealised();
  }

  lemma OneTreeRealised()
    ensures Realised(OneTree(), OneVolume("16384"))
  {
    var c, t := OneVolume("16384"), OneTree();
    var b, tg := c.backstores[0], c.targets[0];
    var g := tg.tpgs[0];
    assert b in c.backstores && tg in c.targets && g in tg.tpgs && g.luns[0] in g.luns;
    assert c.backstores[..0] == [];
    assert KeyMap(c.backstores) == map["v" := b.key];
    assert LunsRealised(t.nodes[Path("iqn.t", 1)].luns, g.luns, KeyMap(c.backstores));
    assert NodeRealised(t.nodes[Path("iqn.t", 1)], g, KeyMap(c.backstores));
  }

  lemma ForgottenAt(t0: Tree, t1: Tree, prev: Config, next: Config, d: Delta, refused: seq<Drift>, drift: seq<Drift>, unread: map<string, set<Attr>>)
    requires prev == OneVolume("16384") && next == OneVolume("0") && Passed(t0, t1, prev, next, d, refused) && Describes(t0, prev, prev, {})
    requires AllRecorded(t1.objs, next.backstores, drift, unread) && "v" in unread && OptimalSectors in unread["v"]
    requires Patch("v", next.backstores[0].attrs, refused) != next.backstores[0].attrs
    ensures View(next, drift) == next && !AttrsBut(t1.objs, next.backstores, {})
  {
    var b := next.backstores[0];
    assert b in next.backstores && b !in prev.backstores;
    assert b in d.add.backstores;
    assert Done(b, t1.objs[b.key], refused);
    assert Patch("v", b.attrs, refused).Keys == b.attrs.Keys == {OptimalSectors};
    assert Recorded(b, t1.objs[b.key], drift, unread["v"]);
    assert Patch("v", b.attrs, drift) == b.attrs;
    assert View(next, drift).backstores == next.backstores;
    assert !LiveAt(t1.objs, b, OptimalSectors);
  }

  /** The failure the condition shuts out.  A volume is exported and another value is asked for;
      the kernel refuses it, and reading it back fails.  The view is then what was asked for,
      which leaves the next delta nothing to try. */
  method ForgottenDrift(misreads: nat -> bool) returns (fs: Configfs, next: Config, view: Config, slipped: bool)
    ensures slipped ==> Realised(fs.tree, view) && !AttrsBut(fs.tree.objs, view.backstores, {}) && view == next
  {
    OneTreeStands();
    OneTreeHolds();
    fs := new Configfs(OneTree(), true, misreads);
    ghost var t0 := fs.tree;
    var prev := OneVolume("16384");
    next, view, slipped := OneVolume("0"), prev, false;
    var done, d, refused := AskFor(fs, prev, next);
    if done {
      var drift, unread := VerifyDrift(fs, next);
      view := MakeView(next, drift);
      ViewTopology(fs.tree, next, drift);
      slipped := Patch("v", next.backstores[0].attrs, refused) != next.backstores[0].attrs && OptimalSectors in unread["v"];
      if slipped {
        ForgottenAt(t0, fs.tree, prev, next, d, refused, drift, unread);
      }
    }
  }

  /** One incremental pass on the volume. */
  method AskFor(fs: Configfs, prev: Config, next: Config) returns (done: bool, d: Delta, refused: seq<Drift>)
    requires fs.Inv() && prev == OneVolume("16384") && next == OneVolume("0") && Realised(fs.tree, prev)
    modifies fs
    ensures done ==> Realised(fs.tree, next) && Passed(old(fs.tree), fs.tree, prev, next, d, refused)
    ensures done ==> next.backstores[0].key in fs.tree.objs
  {
    OneVolumeValid("16384");
    OneVolumeValid("0");
    refused := [];
    d, done := DiffConfigs(prev, next);
    if done {
      var err;
      err, refused := ApplyDelta(fs, next, d, map[], prev);
      done := err == Ok;
      assert next.backstores[0] in next.backstores;
    }
  }
}
