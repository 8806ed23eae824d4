/** The desired-state object model of the lio package (lio/model.go) and its
    validation (lio/validate.go).

    A Config is what a caller asks the kernel to hold: backstores, and targets
    whose TPGs carry portals, LUNs and ACLs with mapped LUNs.  Slices are
    sequences; nothing here assumes that keys are unique, Validate decides it. */
module LioConfig {

  datatype Option<+T> = None | Some(value: T)

  datatype Plugin = FileIO | IBlock

  /** The configfs identity core/<plugin>_<hba>/<name>. */
  datatype Key = Key(plugin: Plugin, hba: int, name: string)

  /** The attrib/ keys that are managed by name, and any other. */
  datatype Attr = BlockSize | WriteCache | OptimalSectors | EmulateTpu | EmulateTpws | Other(name: string)

  datatype Backstore = Backstore(key: Key, dev: string, size: int, wwn: string,
                                 buffered: bool, attrs: map<Attr, string>)

  datatype Addr = V4(bits: nat) | V6(bits: nat) {
    predicate Unspecified() { bits == 0 }
  }

  datatype Portal = Portal(ip: Addr, port: nat)
  datatype LUN = LUN(index: int, backstore: string)
  datatype MappedLUN = MappedLUN(index: int, tpgLun: int, writeProtect: bool)
  datatype ACL = ACL(initiator: string, mapped: seq<MappedLUN>)
  datatype TPG = TPG(tag: int, enable: bool, portals: seq<Portal>, luns: seq<LUN>,
                     acls: seq<ACL>, attrs: map<string, string>)
  datatype Target = Target(iqn: string, tpgs: seq<TPG>)
  datatype Config = Config(backstores: seq<Backstore>, targets: seq<Target>)

  /** A TPG directory iscsi/<iqn>/tpgt_<tag>. */
  datatype Path = Path(iqn: string, tag: int)

  const MAX_IQN_LEN := 223

  // ----- the names a config mentions -----

  ghost function LunIndices(luns: seq<LUN>): set<int> {
    set l | l in luns :: l.index
  }

  ghost function MappedIndices(ms: seq<MappedLUN>): set<int> {
    set m | m in ms :: m.index
  }

  ghost function Initiators(acls: seq<ACL>): set<string> {
    set a | a in acls :: a.initiator
  }

  ghost function Names(bs: seq<Backstore>): set<string> {
    set b | b in bs :: b.key.name
  }

  ghost function Keys(bs: seq<Backstore>): set<Key> {
    set b | b in bs :: b.key
  }

  ghost function Iqns(ts: seq<Target>): set<string> {
    set t | t in ts :: t.iqn
  }

  ghost function Tags(gs: seq<TPG>): set<int> {
    set g | g in gs :: g.tag
  }

  // ----- what a valid config is -----

  predicate ValidIqnSegment(s: string) {
    && s != "" && s != "." && s != ".." && |s| <= MAX_IQN_LEN
    && forall c | c in s :: c != '/' && c != ' ' && c >= ' ' && c != 0x7f as char && c != ','
  }

  predicate ValidInitiatorIqn(s: string) {
    "iqn." <= s && ValidIqnSegment(s)
  }

  predicate ValidTargetIqn(s: string) {
    ("iqn." <= s || "naa." <= s) && ValidIqnSegment(s)
  }

  predicate IsHex16(s: string) {
    |s| == 16 && forall c | c in s :: '0' <= c <= '9' || 'a' <= c <= 'f'
  }

  predicate ValidBlockSize(v: string) {
    v == "512" || v == "1024" || v == "2048" || v == "4096"
  }

  predicate ValidBackstore(b: Backstore) {
    && b.key.name != "" && b.key.name != "." && b.key.name != ".."
    && (forall c | c in b.key.name :: c != '/' && c != ' ' && c != '\t' && c != '\n')
    && b.key.hba >= 0
    && b.dev != ""
    && (b.wwn != "" ==> IsHex16(b.wwn))
    && (BlockSize in b.attrs ==> ValidBlockSize(b.attrs[BlockSize]))
  }

  ghost predicate ValidLuns(luns: seq<LUN>, names: set<string>) {
    && (forall l | l in luns :: l.index >= 0 && l.backstore in names)
    && (forall i, j :: 0 <= i < j < |luns| ==> luns[i].index != luns[j].index)
  }

  ghost predicate ValidPortals(ps: seq<Portal>) {
    forall i, j :: 0 <= i < j < |ps| ==> ps[i] != ps[j]
  }

  ghost predicate ValidMapped(ms: seq<MappedLUN>, luns: set<int>) {
    && (forall m | m in ms :: m.index >= 0 && m.tpgLun in luns)
    && (forall i, j :: 0 <= i < j < |ms| ==> ms[i].index != ms[j].index)
  }

  ghost predicate ValidAcls(acls: seq<ACL>, luns: set<int>) {
    && (forall a | a in acls :: ValidInitiatorIqn(a.initiator) && ValidMapped(a.mapped, luns))
    && (forall i, j :: 0 <= i < j < |acls| ==> acls[i].initiator != acls[j].initiator)
  }

  ghost predicate ValidTpg(g: TPG, names: set<string>) {
    && g.tag >= 1
    && ValidLuns(g.luns, names)
    && ValidPortals(g.portals)
    && ValidAcls(g.acls, LunIndices(g.luns))
  }

  ghost predicate ValidTpgs(gs: seq<TPG>, names: set<string>) {
    && (forall g | g in gs :: ValidTpg(g, names))
    && (forall i, j :: 0 <= i < j < |gs| ==> gs[i].tag != gs[j].tag)
  }

  ghost predicate ValidBackstores(bs: seq<Backstore>) {
    && (forall b | b in bs :: ValidBackstore(b))
    && (forall i, j :: 0 <= i < j < |bs| ==> bs[i].key.name != bs[j].key.name)
  }

  ghost predicate ValidTargets(ts: seq<Target>, names: set<string>) {
    && (forall t | t in ts :: ValidTargetIqn(t.iqn) && ValidTpgs(t.tpgs, names))
    && (forall i, j :: 0 <= i < j < |ts| ==> ts[i].iqn != ts[j].iqn)
  }

  ghost predicate Valid(c: Config) {
    ValidBackstores(c.backstores) && ValidTargets(c.targets, Names(c.backstores))
  }

  // ----- Config.Validate, with its seen-maps -----

  /** Config.Validate: one pass per level, each remembering the keys it has seen. */
  method Validate(c: Config) returns (ok: bool)
    ensures ok <==> Valid(c)
  {
    var names: set<string> := {};
    for i := 0 to |c.backstores|
      invariant names == Names(c.backstores[..i])
      invariant ValidBackstores(c.backstores[..i])
    {
      var b := c.backstores[i];
      assert c.backstores[..i + 1] == c.backstores[..i] + [b];
      if !ValidBackstore(b) || b.key.name in names {
        assert b in c.backstores;
        return false;
      }
      names := names + {b.key.name};
    }
    assert c.backstores[..|c.backstores|] == c.backstores;
    var iqns: set<string> := {};
    for i := 0 to |c.targets|
      invariant iqns == Iqns(c.targets[..i])
      invariant ValidTargets(c.targets[..i], names)
    {
      var t := c.targets[i];
      assert c.targets[..i + 1] == c.targets[..i] + [t];
      if t.iqn in iqns {
        return false;
      }
      iqns := iqns + {t.iqn};
      var tok := ValidateTarget(t, names);
      if !tok {
        assert t in c.targets;
        return false;
      }
    }
    assert c.targets[..|c.targets|] == c.targets;
    return true;
  }

  /** Target.validate. */
  method ValidateTarget(t: Target, names: set<string>) returns (ok: bool)
    ensures ok <==> ValidTargetIqn(t.iqn) && ValidTpgs(t.tpgs, names)
  {
    if !ValidTargetIqn(t.iqn) {
      return false;
    }
    var tags: set<int> := {};
    for i := 0 to |t.tpgs|
      invariant tags == Tags(t.tpgs[..i])
      invariant ValidTpgs(t.tpgs[..i], names)
    {
      var g := t.tpgs[i];
      assert t.tpgs[..i + 1] == t.tpgs[..i] + [g];
      if g.tag in tags {
        return false;
      }
      tags := tags + {g.tag};
      var gok := ValidateTpg(g, names);
      if !gok {
        assert g in t.tpgs;
        return false;
      }
    }
    assert t.tpgs[..|t.tpgs|] == t.tpgs;
    return true;
  }

  method ValidateTpg(g: TPG, names: set<string>) returns (ok: bool)
    ensures ok <==> ValidTpg(g, names)
  {
    if g.tag < 1 {
      return false;
    }
    var luns: set<int> := {};
    for i := 0 to |g.luns|
      invariant luns == LunIndices(g.luns[..i])
      invariant ValidLuns(g.luns[..i], names)
    {
      var l := g.luns[i];
      assert g.luns[..i + 1] == g.luns[..i] + [l];
      if l.index < 0 || l.index in luns || l.backstore !in names {
        assert l in g.luns;
        return false;
      }
      luns := luns + {l.index};
    }
    assert g.luns[..|g.luns|] == g.luns;
    var portals: set<Portal> := {};
    for i := 0 to |g.portals|
      invariant portals == set p | p in g.portals[..i]
      invariant ValidPortals(g.portals[..i])
    {
      assert g.portals[..i + 1] == g.portals[..i] + [g.portals[i]];
      if g.portals[i] in portals {
        return false;
      }
      portals := portals + {g.portals[i]};
    }
    assert g.portals[..|g.portals|] == g.portals;
    var iqns: set<string> := {};
    for i := 0 to |g.acls|
      invariant iqns == Initiators(g.acls[..i])
      invariant ValidAcls(g.acls[..i], luns)
    {
      var a := g.acls[i];
      assert g.acls[..i + 1] == g.acls[..i] + [a];
      if a.initiator in iqns {
        return false;
      }
      iqns := iqns + {a.initiator};
      var mok := ValidateMapped(a.mapped, luns);
      if !ValidInitiatorIqn(a.initiator) || !mok {
        assert a in g.acls;
        return false;
      }
    }
    assert g.acls[..|g.acls|] == g.acls;
    return true;
  }

  method ValidateMapped(ms: seq<MappedLUN>, luns: set<int>) returns (ok: bool)
    ensures ok <==> ValidMapped(ms, luns)
  {
    var seen: set<int> := {};
    for i := 0 to |ms|
      invariant seen == MappedIndices(ms[..i])
      invariant ValidMapped(ms[..i], luns)
    {
      var m := ms[i];
      assert ms[..i + 1] == ms[..i] + [m];
      if m.index < 0 || m.index in seen || m.tpgLun !in luns {
        assert m in ms;
        return false;
      }
      seen := seen + {m.index};
    }
    assert ms[..|ms|] == ms;
    return true;
  }
}
