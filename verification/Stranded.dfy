/** StrandedReservations (lio/stranded.go:205-404): a reservation is called stranded only when no
    live session of its holder can be the one its registration demands, although the kernel
    shows one session per ACL. */
module Stranded {
  import opened LioConfig
  import opened Topology
  import opened Ensure
  import opened Diff
  import opened Remove

  /** One live session; id tells two sessions of an initiator apart. */
  datatype Session = Session(id: nat, p: Path, initiator: string, isid: string)

  datatype AclPlace = AclPlace(p: Path, initiator: string)

  /** What the kernel holds while the check runs: sessions, ACLs, and for each ACL with a session
      the one its info attribute renders.  And what of it cannot be read: info attributes, and
      session counts of targets. */
  datatype Kern = Kern(live: set<Session>, acls: map<Path, set<string>>, face: map<AclPlace, Session>,
                       broken: set<AclPlace>, countless: set<string>)

  function AclOf(s: Session): AclPlace { AclPlace(s.p, s.initiator) }

  ghost predicate Coherent(k: Kern) {
    && (forall s | s in k.live :: s.p in k.acls && s.initiator in k.acls[s.p] && AclOf(s) in k.face)
    && (forall x | x in k.face :: k.face[x] in k.live && AclOf(k.face[x]) == x)
  }

  function On(live: set<Session>, iqn: string): set<Session> {
    set s | s in live && s.p.iqn == iqn
  }

  /** The ACL shows a session: it has one, and its info can be read. */
  predicate Shows(k: Kern, x: AclPlace) { x in k.face && x !in k.broken }

  /** ReadAttr(info) and ParseSessionISID. */
  function Info(k: Kern, x: AclPlace): Option<string> {
    if Shows(k, x) then Some(k.face[x].isid) else None
  }

  // ----- counting what can be seen -----

  /** ACLs of the target's configured TPGs that show a session. */
  ghost function Visible(k: Kern, t: Target): set<AclPlace> {
    set x | x in k.face && Shows(k, x) && x.p.iqn == t.iqn && x.p.tag in Tags(t.tpgs)
  }

  ghost function VisibleAt(k: Kern, p: Path): set<AclPlace> {
    set x | x in k.face && Shows(k, x) && x.p == p
  }

  /** Those under the first TPGs. */
  ghost function VisibleUnder(k: Kern, iqn: string, gs: seq<TPG>): set<AclPlace> {
    set x | x in k.face && Shows(k, x) && x.p.iqn == iqn && x.p.tag in Tags(gs)
  }

  /** Those at one TPG, but for some initiators. */
  ghost function VisibleBut(k: Kern, p: Path, rest: set<string>): set<AclPlace> {
    set x | x in k.face && Shows(k, x) && x.p == p && x.initiator !in rest
  }

  lemma VisibleNext(k: Kern, p: Path, rest: set<string>, a: string)
    requires a in rest
    ensures AclPlace(p, a) !in VisibleBut(k, p, rest)
    ensures VisibleBut(k, p, rest - {a}) == VisibleBut(k, p, rest) + if Shows(k, AclPlace(p, a)) then {AclPlace(p, a)} else {}
  {
  }

  lemma VisibleEnds(k: Kern, p: Path)
    requires Coherent(k)
    ensures VisibleBut(k, p, if p in k.acls then k.acls[p] else {}) == {} && VisibleBut(k, p, {}) == VisibleAt(k, p)
  {
    assert forall x | x in k.face && x.p == p :: k.face[x] in k.live;
  }

  method CountAcls(k: Kern, p: Path) returns (n: nat)
    requires Coherent(k)
    ensures n == |VisibleAt(k, p)|
  {
    n := 0;
    var rest: set<string> := if p in k.acls then k.acls[p] else {};
    VisibleEnds(k, p);
    while rest != {}
      invariant n == |VisibleBut(k, p, rest)|
      decreases rest
    {
      var a := Pick(rest);
      VisibleNext(k, p, rest, a);
      if Info(k, AclPlace(p, a)).Some? {
        n := n + 1;
      }
      rest := rest - {a};
    }
  }

  /** The inner loops of blindTargets for one target (lio/stranded.go:294-309). */
  method CountVisible(k: Kern, t: Target) returns (n: nat)
    requires Coherent(k) && Distinct(t.tpgs, TagKey)
    ensures n == |Visible(k, t)|
  {
    n := 0;
    for i := 0 to |t.tpgs|
      invariant n == |VisibleUnder(k, t.iqn, t.tpgs[..i])|
    {
      assert t.tpgs[..i + 1] == t.tpgs[..i] + [t.tpgs[i]];
      var p := Path(t.iqn, t.tpgs[i].tag);
      var m := CountAcls(k, p);
      FreshTag(t.tpgs, i);
      assert VisibleUnder(k, t.iqn, t.tpgs[..i]) !! VisibleAt(k, p);
      assert VisibleUnder(k, t.iqn, t.tpgs[..i + 1]) == VisibleUnder(k, t.iqn, t.tpgs[..i]) + VisibleAt(k, p);
      n := n + m;
    }
    assert t.tpgs[..|t.tpgs|] == t.tpgs;
    assert VisibleUnder(k, t.iqn, t.tpgs) == Visible(k, t);
  }

  lemma FreshTag(gs: seq<TPG>, i: nat)
    requires i < |gs| && Distinct(gs, TagKey)
    ensures gs[i].tag !in Tags(gs[..i])
  {
    forall g | g in gs[..i] ensures g.tag != gs[i].tag {
      var j :| 0 <= j < i && gs[j] == g;
      assert TagKey(gs[j]) != TagKey(gs[i]);
    }
  }

  // ----- the count bounds what is hidden -----

  /** The sessions that the given ACLs render: one each. */
  ghost function Faces(k: Kern, acls: set<AclPlace>): set<Session>
    requires acls <= k.face.Keys
  {
    set x | x in acls :: k.face[x]
  }

  lemma {:induction false} FaceCount(k: Kern, acls: set<AclPlace>)
    requires Coherent(k) && acls <= k.face.Keys
    ensures |Faces(k, acls)| == |acls| && Faces(k, acls) <= k.live
  {
    if acls != {} {
      var x :| x in acls;
      FaceCount(k, acls - {x});
      assert Faces(k, acls) == Faces(k, acls - {x}) + {k.face[x]};
      assert k.face[x] !in Faces(k, acls - {x});
    }
  }

  /** More sessions are live on the target than can be seen, or nobody knows how many. */
  ghost predicate Blind(k: Kern, t: Target) {
    t.iqn in k.countless || |On(k.live, t.iqn)| > |Visible(k, t)|
  }

  /** When no more sessions are live than can be seen, every one is what some ACL renders. */
  lemma NoneHidden(k: Kern, t: Target, s: Session)
    requires Coherent(k) && !Blind(k, t) && s in k.live && s.p.iqn == t.iqn
    ensures AclOf(s) in Visible(k, t) && k.face[AclOf(s)] == s
  {
    var acls, live := Visible(k, t), On(k.live, t.iqn);
    FaceCount(k, acls);
    assert Faces(k, acls) <= live;
    SubsetCardinality(Faces(k, acls), live);
    SubsetCount(Faces(k, acls), live);
    assert s in live;
    assert s in Faces(k, acls);
  }

  /** And when there are more, one is live that no visible ACL renders. */
  lemma SomeHidden(k: Kern, t: Target) returns (s: Session)
    requires Coherent(k) && |On(k.live, t.iqn)| > |Visible(k, t)|
    ensures s in k.live && s.p.iqn == t.iqn && s !in Faces(k, Visible(k, t))
  {
    var acls, live := Visible(k, t), On(k.live, t.iqn);
    FaceCount(k, acls);
    if live <= Faces(k, acls) {
      SubsetCardinality(live, Faces(k, acls));
    }
    s :| s in live && s !in Faces(k, acls);
  }

  /** blindTargets (lio/stranded.go:286-319). */
  method BlindTargets(k: Kern, c: Config) returns (blind: set<string>)
    requires Coherent(k) && Distinct(c.targets, IqnKey) && forall t | t in c.targets :: Distinct(t.tpgs, TagKey)
    ensures blind <= Iqns(c.targets) && forall t | t in c.targets :: t.iqn in blind <==> Blind(k, t)
  {
    blind := {};
    for i := 0 to |c.targets|
      invariant blind <= Iqns(c.targets[..i])
      invariant forall t | t in c.targets[..i] :: t.iqn in blind <==> Blind(k, t)
    {
      var t := c.targets[i];
      assert c.targets[..i + 1] == c.targets[..i] + [t];
      assert t in c.targets;
      FreshIqn(c.targets, i);
      var n := CountVisible(k, t);
      if t.iqn in k.countless || |On(k.live, t.iqn)| > n {
        blind := blind + {t.iqn};
      }
    }
    assert c.targets[..|c.targets|] == c.targets;
  }

  lemma FreshIqn(ts: seq<Target>, i: nat)
    requires i < |ts| && Distinct(ts, IqnKey)
    ensures ts[i].iqn !in Iqns(ts[..i])
  {
    forall t | t in ts[..i] ensures t.iqn != ts[i].iqn {
      var j :| 0 <= j < i && ts[j] == t;
      assert IqnKey(ts[j]) != IqnKey(ts[i]);
    }
  }

  // ----- the holder's sessions -----

  /** The identifiers shown for the holder under the paths. */
  ghost function Isids(k: Kern, holder: string, ps: set<Path>): set<string> {
    set p | p in ps && Shows(k, AclPlace(p, holder)) :: k.face[AclPlace(p, holder)].isid
  }

  method IsidsOn(k: Kern, holder: string, t: Target, seen: set<string>, ghost ps: set<Path>) returns (isids: set<string>)
    requires seen == Isids(k, holder, ps)
    ensures isids == Isids(k, holder, ps + TagPaths(t.iqn, t.tpgs))
  {
    isids := seen;
    assert ps + TagPaths(t.iqn, t.tpgs[..0]) == ps;
    for j := 0 to |t.tpgs|
      invariant isids == Isids(k, holder, ps + TagPaths(t.iqn, t.tpgs[..j]))
    {
      TagPathsNext(t.iqn, t.tpgs, j, ps);
      var r := Info(k, AclPlace(Path(t.iqn, t.tpgs[j].tag), holder));
      if r.Some? {
        isids := isids + {r.value};
      }
    }
    assert t.tpgs[..|t.tpgs|] == t.tpgs;
  }

  /** liveISIDs (lio/stranded.go:376-404): the identifier of each configured TPG that shows one. */
  method LiveIsids(k: Kern, c: Config, holder: string) returns (isids: set<string>)
    ensures isids == Isids(k, holder, PathsOf(c.targets))
  {
    isids := {};
    for i := 0 to |c.targets|
      invariant isids == Isids(k, holder, PathsOf(c.targets[..i]))
    {
      PathsNext(c.targets, i);
      isids := IsidsOn(k, holder, c.targets[i], isids, PathsOf(c.targets[..i]));
    }
    assert c.targets[..|c.targets|] == c.targets;
  }

  /** The holder shows a session on the target. */
  ghost predicate ShowsOn(k: Kern, t: Target, holder: string) {
    exists g | g in t.tpgs :: Shows(k, AclPlace(Path(t.iqn, g.tag), holder))
  }

  /** The first blind target the holder shows a session on. */
  ghost function FirstBlind(k: Kern, ts: seq<Target>, holder: string): Option<string> {
    if ts == [] then None
    else if Blind(k, ts[0]) && ShowsOn(k, ts[0], holder) then Some(ts[0].iqn)
    else FirstBlind(k, ts[1..], holder)
  }

  /** blindTargetFor (lio/stranded.go:323-342). */
  method BlindTargetFor(k: Kern, c: Config, holder: string, blind: set<string>) returns (r: Option<string>)
    requires forall t | t in c.targets :: t.iqn in blind <==> Blind(k, t)
    ensures r == FirstBlind(k, c.targets, holder)
  {
    for i := 0 to |c.targets|
      invariant FirstBlind(k, c.targets, holder) == FirstBlind(k, c.targets[i..], holder)
    {
      var t := c.targets[i];
      assert c.targets[i..][1..] == c.targets[i + 1..] && t in c.targets;
      if t.iqn in blind {
        for j := 0 to |t.tpgs|
          invariant forall g | g in t.tpgs[..j] :: !Shows(k, AclPlace(Path(t.iqn, g.tag), holder))
        {
          assert t.tpgs[..j + 1] == t.tpgs[..j] + [t.tpgs[j]];
          if Info(k, AclPlace(Path(t.iqn, t.tpgs[j].tag), holder)).Some? {
            assert t.tpgs[j] in t.tpgs;
            return Some(t.iqn);
          }
        }
        assert t.tpgs[..|t.tpgs|] == t.tpgs;
      }
    }
    return None;
  }

  // ----- the verdict -----

  /** A reservation as ReservationHolder reads it. */
  datatype Res = Res(holder: string, isid: string, spc2: bool, allReg: bool)

  datatype Verdict = Silent | Undecided(iqn: string) | IsStranded

  /** A reservation that only a session with its identifier can manage. */
  predicate Bound(res: Res) { res.holder != "" && res.isid != "" && !res.spc2 && !res.allReg }

  /** Every session shown for the holder, of which there is one at least, has another identifier. */
  ghost predicate Mismatch(k: Kern, c: Config, res: Res) {
    && Bound(res)
    && (exists p :: p in PathsOf(c.targets) && Shows(k, AclPlace(p, res.holder)))
    && (forall p | p in PathsOf(c.targets) && Shows(k, AclPlace(p, res.holder)) :: k.face[AclPlace(p, res.holder)].isid != res.isid)
  }

  lemma MismatchIs(k: Kern, c: Config, res: Res)
    ensures var isids := Isids(k, res.holder, PathsOf(c.targets));
            Mismatch(k, c, res) <==> Bound(res) && isids != {} && res.isid !in isids
  {
    var isids := Isids(k, res.holder, PathsOf(c.targets));
    forall p | p in PathsOf(c.targets) && Shows(k, AclPlace(p, res.holder)) ensures k.face[AclPlace(p, res.holder)].isid in isids {
    }
    if isids != {} {
      var x :| x in isids;
    }
  }

  /** What is said of one reservation. */
  ghost function VerdictOf(k: Kern, c: Config, res: Res): Verdict {
    if !Mismatch(k, c, res) then Silent
    else match FirstBlind(k, c.targets, res.holder)
      case Some(iqn) => Undecided(iqn)
      case None => IsStranded
  }

  /** One reservation (lio/stranded.go:221-257). */
  method Decide(k: Kern, c: Config, res: Res, blind: set<string>) returns (v: Verdict)
    requires forall t | t in c.targets :: t.iqn in blind <==> Blind(k, t)
    ensures v == VerdictOf(k, c, res)
  {
    if res.holder == "" || res.isid == "" || res.spc2 || res.allReg {
      return Silent;
    }
    var isids := LiveIsids(k, c, res.holder);
    MismatchIs(k, c, res);
    if isids == {} || res.isid in isids {
      return Silent;
    }
    var t := BlindTargetFor(k, c, res.holder, blind);
    if t.Some? {
      return Undecided(t.value);
    }
    return IsStranded;
  }

  /** The backstores that the verdict is Undecided about for one target, in order. */
  ghost function UndecidedOn(k: Kern, c: Config, bs: seq<Backstore>, held: map<Key, Res>, iqn: string): seq<Key> {
    if bs == [] then []
    else
      var b := bs[|bs| - 1];
      UndecidedOn(k, c, bs[..|bs| - 1], held, iqn)
      + (if b.key in held && VerdictOf(k, c, held[b.key]) == Undecided(iqn) then [b.key] else [])
  }

  /** StrandedReservations: every backstore of the config has the verdict its reservation has;
      one whose reservation cannot be read has none. */
  method StrandedReservations(k: Kern, c: Config, held: map<Key, Res>) returns (stranded: seq<Backstore>, undecided: map<string, seq<Key>>)
    requires Coherent(k) && Distinct(c.targets, IqnKey) && forall t | t in c.targets :: Distinct(t.tpgs, TagKey)
    ensures forall b :: b in stranded <==> b in c.backstores && b.key in held && VerdictOf(k, c, held[b.key]) == IsStranded
    ensures forall iqn :: (if iqn in undecided then undecided[iqn] else []) == UndecidedOn(k, c, c.backstores, held, iqn)
  {
    stranded, undecided := [], map[];
    var blind := BlindTargets(k, c);
    for i := 0 to |c.backstores|
      invariant forall b :: b in stranded <==> b in c.backstores[..i] && b.key in held && VerdictOf(k, c, held[b.key]) == IsStranded
      invariant forall iqn :: (if iqn in undecided then undecided[iqn] else []) == UndecidedOn(k, c, c.backstores[..i], held, iqn)
    {
      var b := c.backstores[i];
      TakeNext(c.backstores, i);
      assert c.backstores[..i + 1][..i] == c.backstores[..i];
      if b.key in held { // readable
        var v := Decide(k, c, held[b.key], blind);
        if v == IsStranded {
          stranded := stranded + [b];
        } else if v.Undecided? {
          undecided := undecided[v.iqn := (if v.iqn in undecided then undecided[v.iqn] else []) + [b.key]];
        }
      }
    }
    assert c.backstores[..|c.backstores|] == c.backstores;
  }

  lemma {:induction false} FirstBlindNone(k: Kern, ts: seq<Target>, holder: string)
    ensures FirstBlind(k, ts, holder).None? <==> forall t | t in ts && Blind(k, t) :: !ShowsOn(k, t, holder)
  {
    if ts != [] {
      FirstBlindNone(k, ts[1..], holder);
      assert forall t :: t in ts <==> t == ts[0] || t in ts[1..];
    }
  }

  /** A reservation said to be undecided is so for a blind target that the holder shows a session on. */
  lemma {:induction false} UndecidedIsBlind(k: Kern, ts: seq<Target>, holder: string)
    ensures FirstBlind(k, ts, holder).Some? ==>
              exists t :: t in ts && t.iqn == FirstBlind(k, ts, holder).value && Blind(k, t) && ShowsOn(k, t, holder)
  {
    if ts != [] {
      UndecidedIsBlind(k, ts[1..], holder);
      assert ts[0] in ts && forall t | t in ts[1..] :: t in ts;
    }
  }

  // ----- what a report proves -----

  /** A live session of the holder carries the identifier the registration demands. */
  ghost predicate Addressable(k: Kern, res: Res) {
    exists s :: s in k.live && s.initiator == res.holder && s.isid == res.isid
  }

  /** Sessions are on configured TPGs, as they are on a tree that is the config. */
  ghost predicate Confined(k: Kern, c: Config) {
    forall s | s in k.live :: s.p in PathsOf(c.targets)
  }

  /** Nothing the check reads tells the one from the other. */
  ghost predicate LookAlike(k: Kern, k': Kern, c: Config) {
    && k'.countless == k.countless && k'.acls == k.acls
    && (forall x: AclPlace | x.p in PathsOf(c.targets) :: Info(k', x) == Info(k, x))
    && (forall t | t in c.targets && t.iqn !in k.countless :: |On(k'.live, t.iqn)| == |On(k.live, t.iqn)|)
  }

  /** No blind target has an ACL of the holder. */
  ghost predicate Sighted(k: Kern, c: Config, holder: string) {
    forall t, g | t in c.targets && Blind(k, t) && g in t.tpgs && Path(t.iqn, g.tag) in k.acls :: holder !in k.acls[Path(t.iqn, g.tag)]
  }

  lemma SightIsProof(k: Kern, c: Config, res: Res)
    requires Coherent(k) && Confined(k, c) && Mismatch(k, c, res) && Sighted(k, c, res.holder)
    ensures !Addressable(k, res)
  {
    forall s | s in k.live && s.initiator == res.holder ensures s.isid != res.isid {
      var t, g :| t in c.targets && g in t.tpgs && s.p == Path(t.iqn, g.tag);
      NoneHidden(k, t, s);
    }
  }

  lemma AlikeSees(k: Kern, k': Kern, c: Config, res: Res)
    requires LookAlike(k, k', c)
    ensures Mismatch(k, c, res) ==> Mismatch(k', c, res)
    ensures Sighted(k, c, res.holder) ==> Sighted(k', c, res.holder)
  {
    forall t | t in c.targets ensures Blind(k, t) <==> Blind(k', t) {
      assert Visible(k, t) == Visible(k', t) by {
        forall x: AclPlace | x.p.iqn == t.iqn && x.p.tag in Tags(t.tpgs) ensures Shows(k, x) <==> Shows(k', x) {
          var g :| g in t.tpgs && g.tag == x.p.tag;
          assert x.p == Path(t.iqn, g.tag);
          assert Info(k', x) == Info(k, x);
        }
      }
    }
    forall p | p in PathsOf(c.targets) ensures Info(k', AclPlace(p, res.holder)) == Info(k, AclPlace(p, res.holder)) {
    }
  }

  ghost function SessionOf(live: set<Session>, x: AclPlace): Session
    requires exists s :: s in live && AclOf(s) == x
    ensures SessionOf(live, x) in live && AclOf(SessionOf(live, x)) == x
  {
    var s :| s in live && AclOf(s) == x;
    s
  }

  /** The kernel with one session more that cannot be read, in the place of another or not. */
  ghost function Swapped(k: Kern, gone: set<Session>, s: Session): Kern {
    var live := k.live - gone + {s};
    var acls := set r | r in live :: AclOf(r);
    Kern(live, k.acls,
         map x | x in acls :: if x in k.face && k.face[x] in live then k.face[x] else assert exists r :: r in live && AclOf(r) == x; SessionOf(live, x),
         k.broken + {AclOf(s)}, k.countless)
  }

  lemma SwappedInfo(k: Kern, gone: set<Session>, s: Session, x: AclPlace)
    requires Coherent(k) && !Shows(k, AclOf(s)) && (Shows(k, x) ==> k.face[x] !in gone)
    ensures Info(Swapped(k, gone, s), x) == Info(k, x)
  {
    var k' := Swapped(k, gone, s);
    if Shows(k, x) {
      assert k.face[x] in k'.live && AclOf(k.face[x]) == x;
      assert x in k'.face;
    } else {
      assert forall r | r in k'.live :: r == s || AclOf(r) in k.face;
    }
  }

  lemma SwappedCoherent(k: Kern, c: Config, gone: set<Session>, s: Session)
    requires Coherent(k) && Confined(k, c) && s.p in PathsOf(c.targets) && s.p in k.acls && s.initiator in k.acls[s.p]
    ensures Coherent(Swapped(k, gone, s)) && Confined(Swapped(k, gone, s), c)
  {
  }

  lemma SwappedCount(k: Kern, gone: set<Session>, s: Session, iqn: string)
    requires s !in k.live
    requires s.p.iqn == iqn ==> exists r :: r in k.live && r.p.iqn == iqn && gone == {r}
    requires s.p.iqn != iqn ==> forall r | r in gone :: r.p.iqn != iqn
    ensures |On(Swapped(k, gone, s).live, iqn)| == |On(k.live, iqn)|
  {
    var live := Swapped(k, gone, s).live;
    if s.p.iqn == iqn {
      var r :| r in k.live && r.p.iqn == iqn && gone == {r};
      assert On(live, iqn) == On(k.live, iqn) - {r} + {s};
      assert r in On(k.live, iqn) && s !in On(k.live, iqn);
    } else {
      assert On(live, iqn) == On(k.live, iqn);
    }
  }

  /** A target that is blind and has an ACL of the holder may hold the very session that is
      missed, for all the check can see. */
  lemma Disguised(k: Kern, c: Config, t: Target, g: TPG, res: Res) returns (k': Kern)
    requires Coherent(k) && Confined(k, c) && Distinct(c.targets, IqnKey) && t in c.targets && g in t.tpgs && Blind(k, t)
    requires Path(t.iqn, g.tag) in k.acls && res.holder in k.acls[Path(t.iqn, g.tag)] && !ShowsOn(k, t, res.holder)
    ensures Coherent(k') && Confined(k', c) && LookAlike(k, k', c) && Addressable(k', res)
  {
    if Addressable(k, res) {
      return k;
    }
    var s := Session(0, Path(t.iqn, g.tag), res.holder, res.isid);
    var gone: set<Session> := {};
    if t.iqn !in k.countless {
      var h := SomeHidden(k, t);
      gone := {h};
    }
    k' := Swapped(k, gone, s);
    SwappedCoherent(k, c, gone, s);
    forall x: AclPlace | x.p in PathsOf(c.targets) ensures Info(k', x) == Info(k, x) {
      FaceStays(k, c, t, gone, x);
      SwappedInfo(k, gone, s, x);
    }
    forall u | u in c.targets && u.iqn !in k.countless ensures |On(k'.live, u.iqn)| == |On(k.live, u.iqn)| {
      SwappedCount(k, gone, s, u.iqn);
    }
    assert s in k'.live;
  }

  lemma FaceStays(k: Kern, c: Config, t: Target, gone: set<Session>, x: AclPlace)
    requires Coherent(k) && Distinct(c.targets, IqnKey) && t in c.targets && x.p in PathsOf(c.targets)
    requires forall h | h in gone :: h.p.iqn == t.iqn && h !in Faces(k, Visible(k, t))
    ensures Shows(k, x) ==> k.face[x] !in gone
  {
    if Shows(k, x) && x.p.iqn == t.iqn {
      var u, g :| u in c.targets && g in u.tpgs && x.p == Path(u.iqn, g.tag);
      var i :| 0 <= i < |c.targets| && c.targets[i] == t;
      var j :| 0 <= j < |c.targets| && c.targets[j] == u;
      assert IqnKey(c.targets[i]) == IqnKey(c.targets[j]);
      assert x in Visible(k, t);
      assert k.face[x] in Faces(k, Visible(k, t));
    }
  }

  /** A report that a reservation is stranded proves it, for every kernel that looks like this
      one, exactly when no blind target has an ACL of the holder. */
  lemma StrandIsProof(k: Kern, c: Config, res: Res)
    requires Coherent(k) && Confined(k, c) && Distinct(c.targets, IqnKey) && VerdictOf(k, c, res) == IsStranded
    ensures Sighted(k, c, res.holder) <==>
              forall k' | Coherent(k') && Confined(k', c) && LookAlike(k, k', c) :: !Addressable(k', res)
  {
    if Sighted(k, c, res.holder) {
      forall k' | Coherent(k') && Confined(k', c) && LookAlike(k, k', c) ensures !Addressable(k', res) {
        AlikeSees(k, k', c, res);
        SightIsProof(k', c, res);
      }
    } else {
      var t, g :| t in c.targets && Blind(k, t) && g in t.tpgs && Path(t.iqn, g.tag) in k.acls && res.holder in k.acls[Path(t.iqn, g.tag)];
      FirstBlindNone(k, c.targets, res.holder);
      var k' := Disguised(k, c, t, g, res);
    }
  }

  function TwoTargets(ia: string, ib: string): Config {
    var g := TPG(1, true, [], [], [], map[]);
    Config([], [Target(ia, [g]), Target(ib, [g])])
  }

  lemma TwoPaths(ia: string, ib: string)
    ensures PathsOf(TwoTargets(ia, ib).targets) == {Path(ia, 1), Path(ib, 1)}
    ensures forall t | t in TwoTargets(ia, ib).targets :: Tags(t.tpgs) == {1} && t.iqn in {ia, ib}
  {
    var ts := TwoTargets(ia, ib).targets;
    assert ts[0] in ts && ts[1] in ts && ts[0].tpgs[0] in ts[0].tpgs && ts[1].tpgs[0] in ts[1].tpgs;
  }

  /** The demanded session r is on the second target, whose ACL cannot be read. */
  function HalfSeen(s: Session, r: Session): Kern {
    Kern({s, r}, map[s.p := {s.initiator}, r.p := {r.initiator}], map[AclOf(s) := s, AclOf(r) := r], {AclOf(r)}, {})
  }

  /** The first target is in plain view, and the holder shows nothing on the second. */
  lemma MustStrand(c: Config, s: Session, r: Session)
    requires s.initiator == r.initiator != "" && s.isid != r.isid && r.isid != "" && s.p.iqn != r.p.iqn
    requires PathsOf(c.targets) == {s.p, r.p} && s.p.tag == 1 && forall t | t in c.targets :: Tags(t.tpgs) == {1}
    ensures VerdictOf(HalfSeen(s, r), c, Res(s.initiator, r.isid, false, false)) == IsStranded
  {
    var k := HalfSeen(s, r);
    assert Shows(k, AclPlace(s.p, s.initiator)) && !Shows(k, AclPlace(r.p, s.initiator));
    forall t | t in c.targets && t.iqn == s.p.iqn ensures !Blind(k, t) {
      assert On(k.live, t.iqn) == {s};
      assert Visible(k, t) == {AclOf(s)};
    }
    FirstBlindNone(k, c.targets, s.initiator);
    assert Mismatch(k, c, Res(s.initiator, r.isid, false, false));
  }

  /** The failure the condition shuts out: the demanded session is live on a second target, whose
      ACL cannot be read, while another session of the holder is in plain view. */
  method FalseStrand(ia: string, ib: string, h: string, x: string, w: string) returns (k: Kern, c: Config, v: Verdict)
    requires ia != ib && x != w && h != "" && w != ""
    ensures v == IsStranded && Coherent(k) && Confined(k, c) && Addressable(k, Res(h, w, false, false))
  {
    c := TwoTargets(ia, ib);
    TwoPaths(ia, ib);
    var s, r := Session(0, Path(ia, 1), h, x), Session(1, Path(ib, 1), h, w);
    k := HalfSeen(s, r);
    var blind := BlindTargets(k, c);
    MustStrand(c, s, r);
    v := Decide(k, c, Res(h, w, false, false), blind);
    assert r in k.live;
  }
}
