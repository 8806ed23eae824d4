/** verifyBackstoreAPTPL (lio/backstore.go:441-618) and the export test it rests on
    (lio/aptplcheck.go:209-298): when it says nothing, the fence is as it was saved. */
module VerifyAptpl {
  import opened LioConfig
  import opened Kernel
  import opened Topology
  import opened Ensure
  import opened Apply
  import opened Sync
  import opened Diff
  import Aptpl
  import Text

  // ----- the export test -----

  /** A mapped LUN of the TPG leads to the named backstore. */
  predicate Leads(g: TPG, m: MappedLUN, name: string) {
    exists l | l in g.luns :: l.index == m.tpgLun && l.backstore == name
  }

  ghost predicate ExportedIn(g: TPG, r: Aptpl.Record, name: string) {
    exists a, m :: a in g.acls && a.initiator == r.initiator && m in a.mapped && m.index == r.mappedLun
                   && m.tpgLun == r.targetLun && Leads(g, m, name)
  }

  /** The export a record was made through still exists, at its five coordinates. */
  ghost predicate IsExported(r: Aptpl.Record, c: Config, b: Backstore) {
    exists t, g :: t in c.targets && t.iqn == r.target && g in t.tpgs && g.tag == r.tpgt && ExportedIn(g, r, b.key.name)
  }

  /** The loops over ACLs, mapped LUNs and LUNs (lio/aptplcheck.go:218-236). */
  method ExportedByTpg(g: TPG, r: Aptpl.Record, name: string) returns (found: bool)
    ensures found <==> ExportedIn(g, r, name)
  {
    for i := 0 to |g.acls|
      invariant forall a, m | a in g.acls[..i] && a.initiator == r.initiator && m in a.mapped ::
                  !(m.index == r.mappedLun && m.tpgLun == r.targetLun && Leads(g, m, name))
    {
      var a := g.acls[i];
      TakeNext(g.acls, i);
      if a.initiator == r.initiator {
        for j := 0 to |a.mapped|
          invariant forall m | m in a.mapped[..j] :: !(m.index == r.mappedLun && m.tpgLun == r.targetLun && Leads(g, m, name))
        {
          var m := a.mapped[j];
          TakeNext(a.mapped, j);
          if m.index == r.mappedLun && m.tpgLun == r.targetLun && Leads(g, m, name) {
            assert a in g.acls && m in a.mapped;
            return true;
          }
        }
        assert a.mapped[..|a.mapped|] == a.mapped;
      }
    }
    assert g.acls[..|g.acls|] == g.acls;
    return false;
  }

  /** exported (lio/aptplcheck.go:209-240). */
  method StillExported(r: Aptpl.Record, c: Config, b: Backstore) returns (found: bool)
    ensures found <==> IsExported(r, c, b)
  {
    for i := 0 to |c.targets|
      invariant forall t, g | t in c.targets[..i] && t.iqn == r.target && g in t.tpgs && g.tag == r.tpgt :: !ExportedIn(g, r, b.key.name)
    {
      var t := c.targets[i];
      TakeNext(c.targets, i);
      if t.iqn == r.target {
        for j := 0 to |t.tpgs|
          invariant forall g | g in t.tpgs[..j] && g.tag == r.tpgt :: !ExportedIn(g, r, b.key.name)
        {
          var g := t.tpgs[j];
          TakeNext(t.tpgs, j);
          if g.tag == r.tpgt {
            found := ExportedByTpg(g, r, b.key.name);
            if found {
              assert t in c.targets && g in t.tpgs;
              return;
            }
          }
        }
        assert t.tpgs[..|t.tpgs|] == t.tpgs;
      }
    }
    assert c.targets[..|c.targets|] == c.targets;
    return false;
  }

  /** Following the links of the live tree from the record's coordinates reaches the backstore. */
  ghost predicate Reaches(t: Tree, r: Aptpl.Record, k: Key) {
    var p := Path(r.target, r.tpgt);
    && p in t.nodes && HasMapped(t.nodes[p], r.initiator, r.mappedLun)
    && t.nodes[p].acls[r.initiator][r.mappedLun].link == Some(r.targetLun)
    && LinkAt(t.nodes, p, r.targetLun) == Some(k)
  }

  lemma ExportedReaches(t: Tree, c: Config, b: Backstore, r: Aptpl.Record)
    requires Valid(c) && Realised(t, c) && b in c.backstores && IsExported(r, c, b)
    ensures Reaches(t, r, b.key)
  {
    var tg, g :| tg in c.targets && tg.iqn == r.target && g in tg.tpgs && g.tag == r.tpgt && ExportedIn(g, r, b.key.name);
    var a, m :| a in g.acls && a.initiator == r.initiator && m in a.mapped && m.index == r.mappedLun
                && m.tpgLun == r.targetLun && Leads(g, m, b.key.name);
    var l :| l in g.luns && l.index == m.tpgLun && l.backstore == b.key.name;
    KeyMapAt(c.backstores);
    assert NodeRealised(t.nodes[Path(tg.iqn, g.tag)], g, KeyMap(c.backstores));
  }

  lemma ReachesExported(t: Tree, c: Config, b: Backstore, r: Aptpl.Record)
    requires Valid(c) && Realised(t, c) && b in c.backstores && Reaches(t, r, b.key)
    ensures IsExported(r, c, b)
  {
    var p := Path(r.target, r.tpgt);
    var tg, g :| tg in c.targets && g in tg.tpgs && p == Path(tg.iqn, g.tag);
    assert NodeRealised(t.nodes[p], g, KeyMap(c.backstores));
    var a :| a in g.acls && a.initiator == r.initiator;
    var m :| m in a.mapped && m.index == r.mappedLun;
    var l :| l in g.luns && l.index == r.targetLun;
    var x := KeyMapNames(c.backstores, l.backstore);
    assert Leads(g, m, b.key.name);
    assert ExportedIn(g, r, b.key.name);
  }

  /** On a tree that is the config, the test answers what the kernel's own links say. */
  lemma ExportedMeansReachable(t: Tree, c: Config, b: Backstore, r: Aptpl.Record)
    requires Valid(c) && Realised(t, c) && b in c.backstores
    ensures IsExported(r, c, b) <==> Reaches(t, r, b.key)
  {
    if IsExported(r, c, b) {
      ExportedReaches(t, c, b, r);
    }
    if Reaches(t, r, b.key) {
      ReachesExported(t, c, b, r);
    }
  }

  // ----- who else can reach the device -----

  ghost predicate OtherIn(g: TPG, name: string, ignore: string) {
    exists a, m :: a in g.acls && a.initiator != ignore && m in a.mapped && Leads(g, m, name)
  }

  /** Some initiator but ignore is mapped to the backstore. */
  ghost predicate OthersMapped(c: Config, b: Backstore, ignore: string) {
    exists t, g :: t in c.targets && g in t.tpgs && OtherIn(g, b.key.name, ignore)
  }

  /** The mapped LUNs of one ACL that lead to the backstore, counted. */
  method CountAcl(g: TPG, a: ACL, name: string) returns (n: nat)
    ensures n > 0 <==> exists m :: m in a.mapped && Leads(g, m, name)
  {
    n := 0;
    for j := 0 to |a.mapped|
      invariant n > 0 <==> exists m :: m in a.mapped[..j] && Leads(g, m, name)
    {
      TakeNext(a.mapped, j);
      var more := CountLuns(g.luns, a.mapped[j], name);
      assert more > 0 <==> Leads(g, a.mapped[j], name);
      n := n + more;
    }
    assert a.mapped[..|a.mapped|] == a.mapped;
  }

  method CountLuns(luns: seq<LUN>, m: MappedLUN, name: string) returns (n: nat)
    ensures n > 0 <==> exists l | l in luns :: l.index == m.tpgLun && l.backstore == name
  {
    n := 0;
    for k := 0 to |luns|
      invariant n > 0 <==> exists l | l in luns[..k] :: l.index == m.tpgLun && l.backstore == name
    {
      TakeNext(luns, k);
      if luns[k].index == m.tpgLun && luns[k].backstore == name {
        assert luns[k] in luns[..k + 1];
        n := n + 1;
      }
    }
    assert luns[..|luns|] == luns;
  }

  method CountTpg(g: TPG, name: string, ignore: string) returns (n: nat)
    ensures n > 0 <==> OtherIn(g, name, ignore)
  {
    n := 0;
    for i := 0 to |g.acls|
      invariant n > 0 <==> exists a, m :: a in g.acls[..i] && a.initiator != ignore && m in a.mapped && Leads(g, m, name)
    {
      TakeNext(g.acls, i);
      if g.acls[i].initiator != ignore {
        var more := CountAcl(g, g.acls[i], name);
        n := n + more;
      }
    }
    assert g.acls[..|g.acls|] == g.acls;
  }

  /** exportedMappings (lio/aptplcheck.go:279-298): the survivors are counted from the topology. */
  method ExportedMappings(c: Config, b: Backstore, ignore: string) returns (n: nat)
    ensures n > 0 <==> OthersMapped(c, b, ignore)
  {
    n := 0;
    for i := 0 to |c.targets|
      invariant n > 0 <==> exists t, g :: t in c.targets[..i] && g in t.tpgs && OtherIn(g, b.key.name, ignore)
    {
      var t := c.targets[i];
      TakeNext(c.targets, i);
      ghost var before := n;
      for j := 0 to |t.tpgs|
        invariant n > 0 <==> before > 0 || exists g :: g in t.tpgs[..j] && OtherIn(g, b.key.name, ignore)
      {
        TakeNext(t.tpgs, j);
        var more := CountTpg(t.tpgs[j], b.key.name, ignore);
        n := n + more;
      }
      assert t.tpgs[..|t.tpgs|] == t.tpgs;
    }
    assert c.targets[..|c.targets|] == c.targets;
  }

  // ----- the check -----

  /** What the kernel holds: registrations by initiator and key, and a holder. */
  datatype Live = Live(regs: set<(string, nat)>, holder: Option<string>)

  datatype Complaint = SavedUnreadable | RecordUnparsable(i: nat) | LiveUnreadable | LinesUnparsed
                     | NotLive(r: Aptpl.Record) | HolderUnreadable | WrongHolder(h: string) | Lapsed(h: string)

  predicate Blank(rec: string) { Text.Blank(rec) }

  /** r is one of the saved records. */
  ghost predicate Saved(recs: seq<string>, r: Aptpl.Record) {
    exists rec :: rec in recs && !Blank(rec) && Aptpl.RecordOf(rec) == Aptpl.Ok(r)
  }

  /** What was read back: the registrations made out of res_pr_registered_i_pts and the lines that
      were not, and the initiator made out of res_holder, "" when there is none to be made out. */
  datatype Readback = Readback(regs: Option<set<(string, nat)>>, unparsed: nat, holder: Option<string>)

  /** A reading may fail or fall short, and reports nothing that is not so. */
  ghost predicate Honest(read: Readback, live: Live) {
    && (read.regs.Some? ==> read.regs.value <= live.regs)
    && (read.holder.Some? && read.holder.value != "" ==> live.holder == read.holder)
  }

  /** A reading that misses nothing. */
  ghost predicate Complete(read: Readback, live: Live) {
    read == Readback(Some(live.regs), 0, Some(if live.holder.Some? then live.holder.value else ""))
  }

  /** A saved holder whose own export is gone, or is not. */
  ghost predicate HolderAt(rec: string, c: Config, b: Backstore, exported: bool) {
    && !Blank(rec) && Aptpl.RecordOf(rec).Ok? && Aptpl.RecordOf(rec).value.holder
    && (IsExported(Aptpl.RecordOf(rec).value, c, b) <==> exported)
  }

  /** The first saved holder that is still exported, "" for none. */
  ghost function FirstExported(recs: seq<string>, c: Config, b: Backstore): string {
    if recs == [] then ""
    else if AnyHolder(recs[..|recs| - 1], c, b, true) then FirstExported(recs[..|recs| - 1], c, b)
    else if HolderAt(recs[|recs| - 1], c, b, true) then Aptpl.RecordOf(recs[|recs| - 1]).value.initiator
    else ""
  }

  /** The last saved holder that is not, "" for none. */
  ghost function LastLapsed(recs: seq<string>, c: Config, b: Backstore): string {
    if recs == [] then ""
    else if HolderAt(recs[|recs| - 1], c, b, false) then Aptpl.RecordOf(recs[|recs| - 1]).value.initiator
    else LastLapsed(recs[..|recs| - 1], c, b)
  }

  ghost predicate AnyHolder(recs: seq<string>, c: Config, b: Backstore, exported: bool) {
    exists rec :: rec in recs && HolderAt(rec, c, b, exported)
  }

  predicate Parses(rec: string) { Blank(rec) || Aptpl.RecordOf(rec).Ok? }

  ghost predicate BadFound(recs: seq<string>, bad: seq<Complaint>) {
    forall x :: x in bad <==> Unparsable(recs, x)
  }

  ghost predicate WantFound(c: Config, b: Backstore, recs: seq<string>, want: seq<Aptpl.Record>) {
    forall r :: r in want <==> Saved(recs, r) && IsExported(r, c, b)
  }

  ghost predicate FirstFound(c: Config, b: Backstore, recs: seq<string>, want: seq<Aptpl.Record>) {
    FirstOf(want) == FirstExported(recs, c, b) && (AnyHolder(recs, c, b, true) <==> HasHolder(want))
  }

  /** What the first loop has found among recs. */
  ghost predicate Found(c: Config, b: Backstore, recs: seq<string>, want: seq<Aptpl.Record>, lapsed: string, bad: seq<Complaint>) {
    && BadFound(recs, bad) && WantFound(c, b, recs, want) && FirstFound(c, b, recs, want)
    && lapsed == LastLapsed(recs, c, b)
  }

  ghost predicate Unparsable(recs: seq<string>, x: Complaint) {
    x.RecordUnparsable? && x.i < |recs| && !Parses(recs[x.i])
  }

  /** The initiator of the first holder in the list. */
  function FirstOf(want: seq<Aptpl.Record>): string {
    if want == [] then "" else if want[0].holder then want[0].initiator else FirstOf(want[1..])
  }

  predicate HasHolder(want: seq<Aptpl.Record>) { exists r :: r in want && r.holder }

  lemma {:induction false} FirstOfMore(want: seq<Aptpl.Record>, r: Aptpl.Record)
    ensures FirstOf(want + [r]) == if HasHolder(want) then FirstOf(want) else if r.holder then r.initiator else ""
    ensures HasHolder(want + [r]) <==> HasHolder(want) || r.holder
  {
    assert r in want + [r];
    if want != [] {
      assert (want + [r])[1..] == want[1..] + [r];
      FirstOfMore(want[1..], r);
      assert forall x | x in want :: x == want[0] || x in want[1..];
      assert want[0] in want + [r] && forall x | x in want :: x in want + [r];
    }
  }

  lemma {:induction false} FirstOfNone(want: seq<Aptpl.Record>)
    requires !HasHolder(want)
    ensures FirstOf(want) == ""
  {
    if want != [] {
      assert want[0] in want;
      FirstOfNone(want[1..]);
    }
  }

  lemma BadNext(c: Config, b: Backstore, recs: seq<string>, i: nat, bad: seq<Complaint>, one: Sorted)
    requires i < |recs| && BadFound(recs[..i], bad) && IsSorted(c, b, recs[i], one)
    ensures BadFound(recs[..i + 1], if one == Bad then bad + [RecordUnparsable(i)] else bad)
  {
    var more := recs[..i + 1];
    assert Parses(recs[i]) <==> one != Bad;
    forall x ensures Unparsable(more, x) <==> Unparsable(recs[..i], x) || (one == Bad && x == RecordUnparsable(i)) {
      if x.RecordUnparsable? && x.i < i {
        assert more[x.i] == recs[..i][x.i];
      }
    }
  }

  lemma WantNext(c: Config, b: Backstore, recs: seq<string>, i: nat, want: seq<Aptpl.Record>, one: Sorted)
    requires i < |recs| && WantFound(c, b, recs[..i], want) && IsSorted(c, b, recs[i], one)
    ensures WantFound(c, b, recs[..i + 1], if one.Wanted? then want + [one.r] else want)
  {
    SavedNext(recs, i);
  }

  lemma FirstNext(c: Config, b: Backstore, recs: seq<string>, i: nat, want: seq<Aptpl.Record>, one: Sorted)
    requires i < |recs| && FirstFound(c, b, recs[..i], want) && IsSorted(c, b, recs[i], one)
    ensures FirstFound(c, b, recs[..i + 1], if one.Wanted? then want + [one.r] else want)
  {
    var more := recs[..i + 1];
    assert more[..|more| - 1] == recs[..i] && more[|more| - 1] == recs[i];
    AnyNext(recs, i, c, b);
    assert HolderAt(recs[i], c, b, true) <==> one.Wanted? && one.r.holder;
    if one.Wanted? {
      FirstOfMore(want, one.r);
    }
    if !HasHolder(want) {
      FirstOfNone(want);
    }
  }

  lemma LapsedNext(c: Config, b: Backstore, recs: seq<string>, i: nat, one: Sorted)
    requires i < |recs| && IsSorted(c, b, recs[i], one)
    ensures LastLapsed(recs[..i + 1], c, b) == if one.Gone? && one.r.holder then one.r.initiator else LastLapsed(recs[..i], c, b)
  {
    var more := recs[..i + 1];
    assert more[..|more| - 1] == recs[..i] && more[|more| - 1] == recs[i];
  }

  lemma FoundNext(c: Config, b: Backstore, recs: seq<string>, i: nat, want: seq<Aptpl.Record>, lapsed: string, bad: seq<Complaint>, one: Sorted)
    requires i < |recs| && Found(c, b, recs[..i], want, lapsed, bad) && IsSorted(c, b, recs[i], one)
    ensures Found(c, b, recs[..i + 1], if one.Wanted? then want + [one.r] else want,
                  if one.Gone? && one.r.holder then one.r.initiator else lapsed, if one == Bad then bad + [RecordUnparsable(i)] else bad)
  {
    BadNext(c, b, recs, i, bad, one);
    WantNext(c, b, recs, i, want, one);
    FirstNext(c, b, recs, i, want, one);
    LapsedNext(c, b, recs, i, one);
  }

  lemma AnyNext(recs: seq<string>, i: nat, c: Config, b: Backstore)
    requires i < |recs|
    ensures AnyHolder(recs[..i + 1], c, b, true) <==> AnyHolder(recs[..i], c, b, true) || HolderAt(recs[i], c, b, true)
  {
    TakeNext(recs, i);
    assert recs[i] in recs[..i + 1];
    if AnyHolder(recs[..i], c, b, true) {
      var rec :| rec in recs[..i] && HolderAt(rec, c, b, true);
      assert rec in recs[..i + 1];
    }
  }

  /** The first loop (lio/backstore.go:468-494): the records still exported, in order, and the
      last saved holder whose own export is gone. */
  method Gather(c: Config, b: Backstore, recs: seq<string>)
    returns (want: seq<Aptpl.Record>, lapsed: string, bad: seq<Complaint>)
    ensures Found(c, b, recs, want, lapsed, bad)
  {
    want, lapsed, bad := [], "", [];
    for i := 0 to |recs|
      invariant Found(c, b, recs[..i], want, lapsed, bad)
    {
      var one := Sort(c, b, recs[i]);
      FoundNext(c, b, recs, i, want, lapsed, bad, one);
      match one
      case Skip =>
      case Bad => bad := bad + [RecordUnparsable(i)];
      case Wanted(r) => want := want + [r];
      case Gone(r) =>
        if r.holder {
          lapsed := r.initiator;
        }
    }
    assert recs[..|recs|] == recs;
  }

  datatype Sorted = Skip | Bad | Wanted(r: Aptpl.Record) | Gone(r: Aptpl.Record)

  ghost predicate IsSorted(c: Config, b: Backstore, rec: string, s: Sorted) {
    match s
    case Skip => Blank(rec)
    case Bad => !Parses(rec)
    case Wanted(r) => !Blank(rec) && Aptpl.RecordOf(rec) == Aptpl.Ok(r) && IsExported(r, c, b)
    case Gone(r) => !Blank(rec) && Aptpl.RecordOf(rec) == Aptpl.Ok(r) && !IsExported(r, c, b)
  }

  /** One saved record: blank, unparsable, still exported or not. */
  method Sort(c: Config, b: Backstore, rec: string) returns (s: Sorted)
    ensures IsSorted(c, b, rec, s)
  {
    if Blank(rec) {
      return Skip;
    }
    var p := Aptpl.ParseRecord(rec);
    if p.Err? {
      return Bad;
    }
    var still := StillExported(p.value, c, b);
    s := if still then Wanted(p.value) else Gone(p.value);
  }

  lemma SavedNext(recs: seq<string>, i: nat)
    requires i < |recs|
    ensures forall r :: Saved(recs[..i + 1], r) <==> Saved(recs[..i], r) || (!Blank(recs[i]) && Aptpl.RecordOf(recs[i]) == Aptpl.Ok(r))
  {
    assert recs[..i + 1] == recs[..i] + [recs[i]];
    forall r ensures Saved(recs[..i + 1], r) <==> Saved(recs[..i], r) || (!Blank(recs[i]) && Aptpl.RecordOf(recs[i]) == Aptpl.Ok(r)) {
      if Saved(recs[..i], r) {
        var rec :| rec in recs[..i] && !Blank(rec) && Aptpl.RecordOf(rec) == Aptpl.Ok(r);
        assert rec in recs[..i + 1];
      }
      assert recs[i] in recs[..i + 1];
    }
  }

  /** Every record still exported is live (lio/backstore.go:520-527). */
  method CheckLive(want: seq<Aptpl.Record>, regs: set<(string, nat)>) returns (bad: seq<Complaint>)
    ensures forall x :: x in bad <==> x.NotLive? && x.r in want && (x.r.initiator, x.r.key) !in regs
  {
    bad := [];
    for i := 0 to |want|
      invariant forall x :: x in bad <==> x.NotLive? && x.r in want[..i] && (x.r.initiator, x.r.key) !in regs
    {
      TakeNext(want, i);
      if (want[i].initiator, want[i].key) !in regs {
        bad := bad + [NotLive(want[i])];
      }
    }
    assert want[..|want|] == want;
  }

  /** The holder among the records still exported, the first one named. */
  method FirstHolder(want: seq<Aptpl.Record>) returns (h: string)
    ensures h == FirstOf(want)
  {
    for i := 0 to |want|
      invariant FirstOf(want) == FirstOf(want[i..])
    {
      assert want[i..][1..] == want[i + 1..];
      if want[i].holder {
        return want[i].initiator;
      }
    }
    return "";
  }

  /** reportLapsedHolder (lio/backstore.go:589-618): silent if nobody else can reach the device,
      or if somebody is read to hold it. */
  method CheckLapsed(c: Config, b: Backstore, lapsed: string, holder: Option<string>) returns (bad: seq<Complaint>)
    ensures bad == if !OthersMapped(c, b, lapsed) then [] else if holder.None? then [HolderUnreadable]
                   else if holder.value == "" then [Lapsed(lapsed)] else []
  {
    var n := ExportedMappings(c, b, lapsed);
    if n == 0 {
      return [];
    }
    if holder.None? {
      return [HolderUnreadable];
    }
    return if holder.value != "" then [] else [Lapsed(lapsed)];
  }

  /** A complaint that this file, topology and reading give cause for. */
  ghost predicate Warranted(c: Config, b: Backstore, recs: Option<seq<string>>, read: Readback, x: Complaint) {
    if recs.None? then x == SavedUnreadable
    else match x
      case SavedUnreadable => false
      case RecordUnparsable(i) => Unparsable(recs.value, x)
      case LiveUnreadable => read.regs.None? && Matters(c, b, recs.value)
      case LinesUnparsed => read.regs.Some? && read.unparsed > 0 && Matters(c, b, recs.value)
      case NotLive(r) => Saved(recs.value, r) && IsExported(r, c, b) && read.regs.Some? && (r.initiator, r.key) !in read.regs.value
      case HolderUnreadable => read.regs.Some? && AboutHolder(c, b, recs.value, read.holder, x)
      case WrongHolder(h) => read.regs.Some? && AboutHolder(c, b, recs.value, read.holder, x)
      case Lapsed(h) => read.regs.Some? && AboutHolder(c, b, recs.value, read.holder, x)
  }

  ghost predicate AboutHolder(c: Config, b: Backstore, recs: seq<string>, holder: Option<string>, x: Complaint) {
    HolderComplaint(c, b, FirstExported(recs, c, b), LastLapsed(recs, c, b), holder, x)
  }

  /** There is something to look up in the kernel. */
  ghost predicate Matters(c: Config, b: Backstore, recs: seq<string>) {
    (exists r :: Saved(recs, r) && IsExported(r, c, b)) || (exists x :: Unparsable(recs, x)) || LastLapsed(recs, c, b) != ""
  }

  /** The complaints there are about the holder. */
  ghost predicate HolderComplaint(c: Config, b: Backstore, first: string, lapsed: string, holder: Option<string>, x: Complaint) {
    if first != "" then (holder.None? && x == HolderUnreadable) || (holder.Some? && holder.value != first && x == WrongHolder(holder.value))
    else lapsed != "" && OthersMapped(c, b, lapsed)
         && ((holder.None? && x == HolderUnreadable) || (holder == Some("") && x == Lapsed(lapsed)))
  }

  /** The holder half of the check (lio/backstore.go:534-562). */
  method CheckHolders(c: Config, b: Backstore, want: seq<Aptpl.Record>, lapsed: string, holder: Option<string>) returns (bad: seq<Complaint>)
    ensures forall x :: x in bad <==> HolderComplaint(c, b, FirstOf(want), lapsed, holder, x)
  {
    bad := [];
    var first := FirstHolder(want);
    if first == "" && lapsed != "" {
      bad := CheckLapsed(c, b, lapsed, holder);
    }
    if first != "" {
      bad := if holder.None? then [HolderUnreadable] else if holder.value != first then [WrongHolder(holder.value)] else [];
    }
  }

  /** Each complaint comes from one part of the check. */
  lemma WarrantedBy(c: Config, b: Backstore, recs: seq<string>, read: Readback, x: Complaint)
    requires Matters(c, b, recs)
    ensures Warranted(c, b, Some(recs), read, x) <==>
              || Unparsable(recs, x)
              || (read.regs.None? && x == LiveUnreadable)
              || (read.regs.Some? && read.unparsed > 0 && x == LinesUnparsed)
              || (read.regs.Some? && x.NotLive? && Saved(recs, x.r) && IsExported(x.r, c, b) && (x.r.initiator, x.r.key) !in read.regs.value)
              || (read.regs.Some? && AboutHolder(c, b, recs, read.holder, x))
  {
  }

  lemma NothingMatters(c: Config, b: Backstore, recs: seq<string>, read: Readback, x: Complaint)
    requires !Matters(c, b, recs)
    ensures !Warranted(c, b, Some(recs), read, x)
  {
    FirstIsSaved(recs, c, b);
  }

  /** verifyBackstoreAPTPL: the complaints are exactly the warranted ones. */
  method Complaints(c: Config, b: Backstore, recs: Option<seq<string>>, read: Readback) returns (report: seq<Complaint>)
    ensures forall x :: x in report <==> Warranted(c, b, recs, read, x)
  {
    if recs.None? {
      return [SavedUnreadable];
    }
    var want, lapsed, bad := Gather(c, b, recs.value);
    assert bad != [] ==> bad[0] in bad;
    assert want != [] ==> want[0] in want;
    if want == [] && bad == [] && lapsed == "" {
      forall x ensures !Warranted(c, b, recs, read, x) {
        NothingMatters(c, b, recs.value, read, x);
      }
      return [];
    }
    assert Matters(c, b, recs.value);
    forall x {
      WarrantedBy(c, b, recs.value, read, x);
    }
    if read.regs.None? {
      return bad + [LiveUnreadable];
    }
    if read.unparsed > 0 {
      bad := bad + [LinesUnparsed];
    }
    var more := CheckLive(want, read.regs.value);
    var held := CheckHolders(c, b, want, lapsed, read.holder);
    report := bad + more + held;
  }

  // ----- what silence means -----

  /** Every saved record still exported is live with its key. */
  ghost predicate Restored(c: Config, b: Backstore, recs: seq<string>, live: Live) {
    && (forall rec | rec in recs :: Parses(rec))
    && (forall r | Saved(recs, r) && IsExported(r, c, b) :: (r.initiator, r.key) in live.regs)
  }

  /** Every saved holder is the live one if its export still exists, and otherwise somebody holds
      a reservation or nobody else can reach the device. */
  ghost predicate HolderKept(c: Config, b: Backstore, recs: seq<string>, live: Live) {
    forall r | Saved(recs, r) && r.holder ::
      if IsExported(r, c, b) then live.holder == Some(r.initiator)
      else OthersMapped(c, b, r.initiator) ==> live.holder.Some?
  }

  /** What is live gives the check nothing to complain about. */
  ghost predicate Quiet(c: Config, b: Backstore, recs: seq<string>, live: Live) {
    var first, lapsed := FirstExported(recs, c, b), LastLapsed(recs, c, b);
    && Restored(c, b, recs, live)
    && (first != "" ==> live.holder == Some(first))
    && (first == "" && lapsed != "" && OthersMapped(c, b, lapsed) ==> live.holder.Some?)
  }

  /** Holders have names. */
  predicate Named(live: Live) { live.holder != Some("") }

  /** Silence is sound for the registrations, and speaks of one holder; and where that is all in
      order and the reading complete, there is silence. */
  lemma SilenceMeans(c: Config, b: Backstore, recs: Option<seq<string>>, read: Readback, live: Live)
    requires Honest(read, live) && Named(live)
    ensures (forall x :: !Warranted(c, b, recs, read, x)) ==> recs.Some? && Quiet(c, b, recs.value, live)
    ensures recs.Some? && Quiet(c, b, recs.value, live) && Complete(read, live) ==> forall x :: !Warranted(c, b, recs, read, x)
  {
    if recs.Some? {
      if forall x :: !Warranted(c, b, recs, read, x) {
        QuietWhenSilent(c, b, recs.value, read, live);
      }
      if Quiet(c, b, recs.value, live) && Complete(read, live) {
        forall x ensures !Warranted(c, b, recs, read, x) {
          assert x.RecordUnparsable? && x.i < |recs.value| ==> recs.value[x.i] in recs.value;
        }
      }
    } else {
      assert Warranted(c, b, recs, read, SavedUnreadable);
    }
  }

  lemma QuietWhenSilent(c: Config, b: Backstore, recs: seq<string>, read: Readback, live: Live)
    requires Honest(read, live) && forall x :: !Warranted(c, b, Some(recs), read, x)
    ensures Quiet(c, b, recs, live)
  {
    forall rec | rec in recs ensures Parses(rec) {
      var i :| 0 <= i < |recs| && recs[i] == rec;
      assert !Warranted(c, b, Some(recs), read, RecordUnparsable(i));
    }
    assert !Warranted(c, b, Some(recs), read, LiveUnreadable);
    forall r | Saved(recs, r) && IsExported(r, c, b) ensures (r.initiator, r.key) in live.regs {
      assert !Warranted(c, b, Some(recs), read, NotLive(r));
    }
    QuietHolder(c, b, recs, read, live);
  }

  lemma QuietHolder(c: Config, b: Backstore, recs: seq<string>, read: Readback, live: Live)
    requires Honest(read, live) && forall x :: !Warranted(c, b, Some(recs), read, x)
    ensures var first, lapsed := FirstExported(recs, c, b), LastLapsed(recs, c, b);
            && (first != "" ==> live.holder == Some(first))
            && (first == "" && lapsed != "" && OthersMapped(c, b, lapsed) ==> live.holder.Some?)
  {
    var first, lapsed := FirstExported(recs, c, b), LastLapsed(recs, c, b);
    if first != "" || (lapsed != "" && OthersMapped(c, b, lapsed)) {
      FirstIsSaved(recs, c, b);
      assert Matters(c, b, recs);
      assert !Warranted(c, b, Some(recs), read, LiveUnreadable);
      WarrantedBy(c, b, recs, read, HolderUnreadable);
      if read.holder.Some? {
        WarrantedBy(c, b, recs, read, WrongHolder(read.holder.value));
        WarrantedBy(c, b, recs, read, Lapsed(lapsed));
      }
    }
  }

  /** The holders on record agree as far as the check can see: those still exported name one
      initiator; and with none exported, the last lapsed one stands for all of them. */
  ghost predicate Covered(c: Config, b: Backstore, recs: seq<string>) {
    var first, lapsed := FirstExported(recs, c, b), LastLapsed(recs, c, b);
    && (forall r | Saved(recs, r) && r.holder && IsExported(r, c, b) :: r.initiator == first != "")
    && (first == "" ==> forall r | Saved(recs, r) && r.holder && OthersMapped(c, b, r.initiator) :: lapsed != "" && OthersMapped(c, b, lapsed))
  }

  /** Some saved holder that is still exported is named h. */
  ghost predicate SavedHolder(recs: seq<string>, c: Config, b: Backstore, h: string) {
    exists r :: Saved(recs, r) && r.holder && IsExported(r, c, b) && r.initiator == h
  }

  lemma {:induction false} FirstIsSaved(recs: seq<string>, c: Config, b: Backstore)
    ensures AnyHolder(recs, c, b, true) ==> SavedHolder(recs, c, b, FirstExported(recs, c, b))
    ensures !AnyHolder(recs, c, b, true) ==> FirstExported(recs, c, b) == ""
  {
    if recs != [] {
      var n := |recs| - 1;
      assert recs[..n + 1] == recs;
      FirstIsSaved(recs[..n], c, b);
      AnyNext(recs, n, c, b);
      if AnyHolder(recs[..n], c, b, true) {
        StillSaved(recs, c, b, FirstExported(recs[..n], c, b));
      } else if HolderAt(recs[n], c, b, true) {
        assert recs[n] in recs && Saved(recs, Aptpl.RecordOf(recs[n]).value);
      }
    }
  }

  lemma StillSaved(recs: seq<string>, c: Config, b: Backstore, h: string)
    requires recs != [] && SavedHolder(recs[..|recs| - 1], c, b, h)
    ensures SavedHolder(recs, c, b, h)
  {
    var init := recs[..|recs| - 1];
    var r :| Saved(init, r) && r.holder && IsExported(r, c, b) && r.initiator == h;
    var rec :| rec in init && !Blank(rec) && Aptpl.RecordOf(rec) == Aptpl.Ok(r);
    assert rec in recs && Saved(recs, r);
  }

  /** The registrations a restored device has. */
  ghost function SavedRegs(recs: seq<string>): set<(string, nat)> {
    set rec | rec in recs && Aptpl.RecordOf(rec).Ok? :: (Aptpl.RecordOf(rec).value.initiator, Aptpl.RecordOf(rec).value.key)
  }

  /** Silence proves the saved fence for every state of the kernel it can be kept in, exactly
      when the file's holders are covered. */
  lemma SilenceIsProof(c: Config, b: Backstore, recs: seq<string>)
    requires forall rec | rec in recs :: Parses(rec)
    ensures Covered(c, b, recs) <==> forall live | Named(live) && Quiet(c, b, recs, live) :: HolderKept(c, b, recs, live)
  {
    if !Covered(c, b, recs) {
      var live := Uncovered(c, b, recs);
    }
  }

  /** The state of the kernel in which silence is wrong. */
  lemma Uncovered(c: Config, b: Backstore, recs: seq<string>) returns (live: Live)
    requires (forall rec | rec in recs :: Parses(rec)) && !Covered(c, b, recs)
    ensures Named(live) && Quiet(c, b, recs, live) && !HolderKept(c, b, recs, live)
  {
    var first := FirstExported(recs, c, b);
    var bad := exists r :: Saved(recs, r) && r.holder && IsExported(r, c, b) && !(r.initiator == first != "");
    live := Live(SavedRegs(recs), if first != "" then Some(first) else if bad then Some("?") else None);
    forall r | Saved(recs, r) ensures (r.initiator, r.key) in live.regs {
      var rec :| rec in recs && !Blank(rec) && Aptpl.RecordOf(rec) == Aptpl.Ok(r);
    }
    if bad {
      var r :| Saved(recs, r) && r.holder && IsExported(r, c, b) && !(r.initiator == first != "");
      var rec :| rec in recs && !Blank(rec) && Aptpl.RecordOf(rec) == Aptpl.Ok(r);
      assert HolderAt(rec, c, b, true);
      FirstIsSaved(recs, c, b);
    }
  }

  /** verifyBackstoreAPTPL on a device in state live: every complaint has its cause, silence means
      that the saved registrations are live and, the holders on record being covered, that the
      fence is kept; and a complete reading of a device in order gives silence. */
  method VerifyBackstore(c: Config, b: Backstore, recs: Option<seq<string>>, read: Readback, ghost live: Live) returns (report: seq<Complaint>)
    requires Honest(read, live) && Named(live)
    ensures forall x :: x in report <==> Warranted(c, b, recs, read, x)
    ensures report == [] ==> recs.Some? && Restored(c, b, recs.value, live)
    ensures report == [] && Covered(c, b, recs.value) ==> HolderKept(c, b, recs.value, live)
    ensures recs.Some? && Quiet(c, b, recs.value, live) && Complete(read, live) ==> report == []
  {
    report := Complaints(c, b, recs, read);
    assert report != [] ==> report[0] in report;
    SilenceMeans(c, b, recs, read, live);
    if report == [] {
      SilenceIsProof(c, b, recs.value);
    }
  }

  /** One volume, mapped to one initiator. */
  function OneMapping(iqn: string, b: string): Config {
    Config([Backstore(Key(FileIO, 0, "v"), "f", 1, "", false, map[])],
           [Target(iqn, [TPG(1, true, [], [LUN(0, "v")], [ACL(b, [MappedLUN(0, 0, false)])], map[])])])
  }

  lemma OneMappingValid(iqn: string, b: string)
    requires ValidTargetIqn(iqn) && ValidInitiatorIqn(b)
    ensures Valid(OneMapping(iqn, b))
  {
    var c := OneMapping(iqn, b);
    assert c.backstores[0] in c.backstores;
    var g := c.targets[0].tpgs[0];
    assert g.luns[0] in g.luns;
    assert ValidTpg(g, Names(c.backstores));
  }

  lemma OnlyMapped(iqn: string, a: string, b: string)
    requires a != b
    ensures var c := OneMapping(iqn, b); OthersMapped(c, c.backstores[0], a) && !OthersMapped(c, c.backstores[0], b)
    ensures var c := OneMapping(iqn, b); forall r: Aptpl.Record | r.mappedLun != 0 :: !IsExported(r, c, c.backstores[0])
  {
    var c := OneMapping(iqn, b);
    var t := c.targets[0];
    var g := t.tpgs[0];
    assert t in c.targets && g in t.tpgs && g.acls[0] in g.acls && g.acls[0].mapped[0] in g.acls[0].mapped && g.luns[0] in g.luns;
    assert Leads(g, g.acls[0].mapped[0], "v");
    assert OtherIn(g, "v", a);
  }

  /** A saved holder record of an initiator, made through a mapped LUN. */
  function HolderReg(initiator: string, iqn: string, mappedLun: nat): Aptpl.Reg {
    Aptpl.Reg(Aptpl.Record(initiator, iqn, 1, mappedLun, 0, 1, true, 1), [])
  }

  function TwoHolders(iqn: string, a: string, b: string): seq<string>
    requires Aptpl.Clean(iqn) && Aptpl.Clean(a) && Aptpl.Clean(b)
  {
    [Aptpl.RecordText(HolderReg(a, iqn, 7)), Aptpl.RecordText(HolderReg(b, iqn, 7))]
  }

  lemma HolderReads(initiator: string, iqn: string)
    requires Aptpl.Clean(iqn) && Aptpl.Clean(initiator)
    ensures var text := Aptpl.RecordText(HolderReg(initiator, iqn, 7));
            !Blank(text) && Aptpl.RecordOf(text) == Aptpl.Ok(HolderReg(initiator, iqn, 7).record)
  {
    Aptpl.RecordBack(HolderReg(initiator, iqn, 7));
    NotBlank(Aptpl.RecordText(HolderReg(initiator, iqn, 7)));
  }

  const NO_HOLDER := Live({}, None)

  lemma LapsedPair(c: Config, b: Backstore, recs: seq<string>, ra: Aptpl.Record, rb: Aptpl.Record)
    requires |recs| == 2 && !Blank(recs[0]) && !Blank(recs[1]) && ra.holder && rb.holder
    requires Aptpl.RecordOf(recs[0]) == Aptpl.Ok(ra) && Aptpl.RecordOf(recs[1]) == Aptpl.Ok(rb)
    requires !IsExported(ra, c, b) && !IsExported(rb, c, b) && OthersMapped(c, b, ra.initiator) && !OthersMapped(c, b, rb.initiator)
    ensures Quiet(c, b, recs, NO_HOLDER) && !HolderKept(c, b, recs, NO_HOLDER)
  {
    assert recs[0] in recs && Saved(recs, ra);
    PairRestored(c, b, recs, ra, rb);
    assert HolderAt(recs[1], c, b, false);
  }

  lemma PairRestored(c: Config, b: Backstore, recs: seq<string>, ra: Aptpl.Record, rb: Aptpl.Record)
    requires |recs| == 2 && Aptpl.RecordOf(recs[0]) == Aptpl.Ok(ra) && Aptpl.RecordOf(recs[1]) == Aptpl.Ok(rb)
    requires !IsExported(ra, c, b) && !IsExported(rb, c, b)
    ensures Restored(c, b, recs, NO_HOLDER) && FirstExported(recs, c, b) == ""
  {
    assert recs == [recs[0], recs[1]];
    assert forall rec | rec in recs :: rec == recs[0] || rec == recs[1];
    assert !AnyHolder(recs, c, b, true);
    FirstIsSaved(recs, c, b);
  }

  lemma TwoLapsed(iqn: string, a: string, b: string)
    requires Aptpl.Clean(iqn) && Aptpl.Clean(a) && Aptpl.Clean(b) && a != b
    ensures var c := OneMapping(iqn, b);
            Quiet(c, c.backstores[0], TwoHolders(iqn, a, b), NO_HOLDER) && !HolderKept(c, c.backstores[0], TwoHolders(iqn, a, b), NO_HOLDER)
  {
    var c := OneMapping(iqn, b);
    OnlyMapped(iqn, a, b);
    HolderReads(a, iqn);
    HolderReads(b, iqn);
    LapsedPair(c, c.backstores[0], TwoHolders(iqn, a, b), HolderReg(a, iqn, 7).record, HolderReg(b, iqn, 7).record);
  }

  /** The failure the condition shuts out: two saved holders whose exports are gone, the last of
      them the one initiator that is mapped still.  No reservation is held, the initiator that the
      other one kept out can write, and the check is silent.  The kernel itself does not write a
      file with two holders, but the parser takes one. */
  method SilentLoss(iqn: string, a: string, b: string) returns (c: Config, recs: seq<string>, read: Readback, report: seq<Complaint>)
    requires Aptpl.Clean(iqn) && Aptpl.Clean(a) && Aptpl.Clean(b) && a != b && ValidTargetIqn(iqn) && ValidInitiatorIqn(b)
    ensures Valid(c) && c.backstores != []
    ensures report == [] && Complete(read, NO_HOLDER) && !HolderKept(c, c.backstores[0], recs, NO_HOLDER)
  {
    c, recs, read := OneMapping(iqn, b), TwoHolders(iqn, a, b), Readback(Some({}), 0, Some(""));
    OneMappingValid(iqn, b);
    TwoLapsed(iqn, a, b);
    report := VerifyBackstore(c, c.backstores[0], Some(recs), read, NO_HOLDER);
  }

  /** What parses has an equals sign in it. */
  lemma NotBlank(rec: string)
    requires Aptpl.RecordOf(rec).Ok?
    ensures !Blank(rec)
  {
    if '=' !in rec {
      Text.SplitParts(rec, ',', '=');
      NoValues(Text.Split(rec, ','));
    }
  }

  lemma {:induction false} NoValues(fields: seq<string>)
    requires forall f | f in fields :: '=' !in f
    ensures Aptpl.Values(fields) == map[]
  {
    if fields != [] {
      var f := fields[|fields| - 1];
      NoValues(fields[..|fields| - 1]);
      Text.TrimKeeps(f, '=');
    }
  }
}
