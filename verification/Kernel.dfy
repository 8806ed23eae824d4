/** The kernel's LIO configfs tree and the system calls the lio package makes on
    it (lio/configfs/configfs.go).  Every call may fail; a directory cannot be
    removed while a child or an incoming symlink remains (lio/delta.go:75-80),
    and a portal is bound under the order-dependent rule measured in
    lio/sync.go:361-436. */
module Kernel {
  import opened LioConfig

  /** One storage object core/<plugin>_<hba>/<name>. */
  datatype Obj = Obj(enabled: bool, dev: string, size: int, buffered: bool,
                     attrs: map<Attr, string>, loaded: set<string>)

  /** acls/<iqn>/lun_<n>: its symlink to a TPG LUN, and write_protect. */
  datatype Mapping = Mapping(link: Option<int>, writeProtect: bool)

  datatype Node = Node(enable: bool, portals: set<Portal>, luns: map<int, Option<Key>>,
                       acls: map<string, map<int, Mapping>>)

  datatype Tree = Tree(objs: map<Key, Obj>, targets: set<string>, nodes: map<Path, Node>)

  const EMPTY_TREE := Tree(map[], {}, map[])
  const EMPTY_NODE := Node(false, {}, map[], map[])
  const NEW_OBJ := Obj(false, "", 0, false, map[], {})

  datatype Err = Ok | Io | Inval | Busy | Refused | Dependency | Incompatible | Invalid | Stale

  /** Calls inside one TPG directory. */
  datatype NodeOp =
    | SetEnable(on: bool)
    | MkPortal(portal: Portal) | RmPortal(portal: Portal)
    | MkLun(i: int) | LinkLun(i: int, k: Key) | UnlinkLun(i: int) | RmLun(i: int)
    | MkAcl(a: string) | RmAcl(a: string)
    | MkMapped(a: string, j: int) | LinkMapped(a: string, j: int, i: int)
    | UnlinkMapped(a: string, j: int) | RmMapped(a: string, j: int)
    | SetWriteProtect(a: string, j: int, on: bool)

  /** Writes to one storage object's files. */
  datatype ObjOp =
    | Control(size: int, buffered: bool) | Udev(dev: string)
    | Load(rec: string) | Enable | SetAttr(attr: Attr, val: string)

  /** Making and removing targets, TPGs and storage objects. */
  datatype DirOp =
    | MkTarget(iqn: string) | RmTarget(iqn: string)
    | MkTpg(p: Path) | RmTpg(p: Path)
    | MkObj(k: Key) | RmObj(k: Key)

  // ----- binding a portal -----

  /** Whether binding a new address beside an existing one on its port is refused.
      The v4 wildcard is refused beside everything, because the duplicate check
      misreads an IPv6 portal; it may be joined by an IPv6 address afterwards. */
  predicate Clash(incoming: Addr, live: Addr) {
    incoming.Unspecified() || (live.Unspecified() && (live.V6? || incoming.V4?))
  }

  predicate Binds(incoming: Portal, live: set<Portal>) {
    forall q | q in live :: q.port == incoming.port ==> !Clash(incoming.ip, q.ip)
  }

  /** wildcardCovers (appliance/appliance.go:1659-1667): 0.0.0.0 covers IPv4, :: both. */
  predicate Covers(w: Addr, other: Addr) {
    w.Unspecified() && (w.V4? ==> other.V4?)
  }

  /** A set of portals that some order of binds can reach. */
  ghost predicate Coexist(ps: set<Portal>) {
    forall p, q | p in ps && q in ps :: p != q && p.port == q.port ==> !Covers(p.ip, q.ip)
  }

  // ----- links -----

  function LinkAt(nodes: map<Path, Node>, p: Path, i: int): Option<Key> {
    if p in nodes && i in nodes[p].luns then nodes[p].luns[i] else None
  }

  predicate Mapped(acls: map<string, map<int, Mapping>>, i: int) {
    exists a | a in acls :: exists j | j in acls[a] :: acls[a][j].link == Some(i)
  }

  predicate Exported(t: Tree, k: Key) {
    exists p | p in t.nodes :: exists i | i in t.nodes[p].luns :: t.nodes[p].luns[i] == Some(k)
  }

  // ----- what a call does -----

  predicate HasMapped(n: Node, a: string, j: int) {
    a in n.acls && j in n.acls[a]
  }

  /** Ok, or why the kernel will refuse the call.  Removing something absent is Ok. */
  function NodeVerdict(n: Node, objs: set<Key>, op: NodeOp): Err {
    match op
    case SetEnable(_) => Ok
    case MkPortal(q) => if q in n.portals || Binds(q, n.portals) then Ok else Refused
    case RmPortal(_) => Ok
    case MkLun(_) => Ok
    case LinkLun(i, k) => if i in n.luns && n.luns[i] in {None, Some(k)} && k in objs then Ok else Io
    case UnlinkLun(_) => Ok
    case RmLun(i) => if i in n.luns && (n.luns[i].Some? || Mapped(n.acls, i)) then Busy else Ok
    case MkAcl(_) => Ok
    case RmAcl(a) => if a in n.acls && n.acls[a] != map[] then Busy else Ok
    case MkMapped(a, _) => if a in n.acls then Ok else Io
    case LinkMapped(a, j, i) =>
      if HasMapped(n, a, j) && n.acls[a][j].link in {None, Some(i)} && i in n.luns then Ok else Io
    case UnlinkMapped(_, _) => Ok
    case RmMapped(a, j) => if HasMapped(n, a, j) && n.acls[a][j].link.Some? then Busy else Ok
    case SetWriteProtect(a, j, _) => if HasMapped(n, a, j) then Ok else Io
  }

  function WithMapping(n: Node, a: string, j: int, m: Mapping): Node
    requires a in n.acls
  {
    n.(acls := n.acls[a := n.acls[a][j := m]])
  }

  function NodeStep(n: Node, op: NodeOp): Node
    requires op.MkMapped? ==> op.a in n.acls
    requires op.LinkMapped? || op.SetWriteProtect? ==> HasMapped(n, op.a, op.j)
  {
    match op
    case SetEnable(on) => n.(enable := on)
    case MkPortal(q) => n.(portals := n.portals + {q})
    case RmPortal(q) => n.(portals := n.portals - {q})
    case MkLun(i) => if i in n.luns then n else n.(luns := n.luns[i := None])
    case LinkLun(i, k) => n.(luns := n.luns[i := Some(k)])
    case UnlinkLun(i) => if i in n.luns then n.(luns := n.luns[i := None]) else n
    case RmLun(i) => n.(luns := n.luns - {i})
    case MkAcl(a) => if a in n.acls then n else n.(acls := n.acls[a := map[]])
    case RmAcl(a) => n.(acls := n.acls - {a})
    case MkMapped(a, j) => if j in n.acls[a] then n else WithMapping(n, a, j, Mapping(None, false))
    case LinkMapped(a, j, i) => WithMapping(n, a, j, n.acls[a][j].(link := Some(i)))
    case UnlinkMapped(a, j) => if HasMapped(n, a, j) then WithMapping(n, a, j, n.acls[a][j].(link := None)) else n
    case RmMapped(a, j) => if HasMapped(n, a, j) then n.(acls := n.acls[a := n.acls[a] - {j}]) else n
    case SetWriteProtect(a, j, on) => WithMapping(n, a, j, n.acls[a][j].(writeProtect := on))
  }

  /** The attributes of a freshly enabled object: enabling a buffered fileio object also
      turns its advertised write cache on (lio/model.go:50-52). */
  function DefaultAttrs(buffered: bool): map<Attr, string> {
    map[BlockSize := "512", OptimalSectors := "16384", EmulateTpu := "0", EmulateTpws := "0",
        WriteCache := if buffered then "1" else "0"]
  }

  /** The buffered option of the control string sets a flag and never clears it. */
  function ObjStep(o: Obj, op: ObjOp): Obj {
    match op
    case Control(size, buffered) => o.(size := size, buffered := buffered || o.buffered)
    case Udev(dev) => o.(dev := dev)
    case Load(rec) => o.(loaded := o.loaded + {rec})
    case Enable => o.(enabled := true, attrs := DefaultAttrs(o.buffered))
    case SetAttr(a, v) => o.(attrs := o.attrs[a := v])
  }

  function DirVerdict(t: Tree, op: DirOp): Err {
    match op
    case MkTarget(_) => Ok
    case RmTarget(iqn) => if exists p | p in t.nodes :: p.iqn == iqn then Busy else Ok
    case MkTpg(p) => if p.iqn in t.targets then Ok else Io
    case RmTpg(p) =>
      if p in t.nodes && (t.nodes[p].luns != map[] || t.nodes[p].acls != map[] || t.nodes[p].portals != {})
      then Busy else Ok
    case MkObj(_) => Ok
    case RmObj(k) => if k in t.objs && Exported(t, k) then Busy else Ok
  }

  function DirStep(t: Tree, op: DirOp): Tree {
    match op
    case MkTarget(iqn) => t.(targets := t.targets + {iqn})
    case RmTarget(iqn) => t.(targets := t.targets - {iqn})
    case MkTpg(p) => if p in t.nodes then t else t.(nodes := t.nodes[p := EMPTY_NODE])
    case RmTpg(p) => t.(nodes := t.nodes - {p})
    case MkObj(k) => if k in t.objs then t else t.(objs := t.objs[k := NEW_OBJ])
    case RmObj(k) => t.(objs := t.objs - {k})
  }

  // ----- the invariant of the tree -----

  ghost predicate NodeOk(n: Node) {
    && Coexist(n.portals)
    && (forall a, j | a in n.acls && j in n.acls[a] ::
          n.acls[a][j].link.Some? ==> n.acls[a][j].link.value in n.luns)
  }

  ghost predicate WellFormed(t: Tree) {
    forall p | p in t.nodes :: p.iqn in t.targets && NodeOk(t.nodes[p])
  }

  /** Every linked backstore is enabled, and every enabled backstore has been given
      each saved registration it was owed. */
  ghost predicate Fenced(t: Tree, owed: map<Key, set<string>>) {
    && LinksEnabled(t)
    && (forall k | k in t.objs :: t.objs[k].enabled ==> k in owed && owed[k] <= t.objs[k].loaded)
  }

  ghost predicate LinksEnabled(t: Tree) {
    forall p, i :: LinkAt(t.nodes, p, i).Some? ==>
      LinkAt(t.nodes, p, i).value in t.objs && t.objs[LinkAt(t.nodes, p, i).value].enabled
  }

  /** The kernel holds no block size but the four it accepts (lio/backstore.go:1161-1172). */
  ghost predicate Geometry(objs: map<Key, Obj>) {
    forall k | k in objs && BlockSize in objs[k].attrs :: ValidBlockSize(objs[k].attrs[BlockSize])
  }

  ghost predicate Healthy(t: Tree, owed: map<Key, set<string>>) {
    WellFormed(t) && Fenced(t, owed) && Geometry(t.objs)
  }

  lemma BindKeepsCoexist(q: Portal, live: set<Portal>)
    requires Coexist(live) && Binds(q, live)
    ensures Coexist(live + {q})
  {
  }

  /** Any accepted call on a node keeps it well formed. */
  lemma NodeStepKeepsShape(n: Node, objs: set<Key>, op: NodeOp)
    requires NodeOk(n) && NodeVerdict(n, objs, op) == Ok
    ensures NodeOk(NodeStep(n, op))
  {
    match op
    case MkPortal(q) =>
      if q in n.portals {
        assert n.portals + {q} == n.portals;
      } else {
        BindKeepsCoexist(q, n.portals);
      }
    case RmLun(i) =>
      if i in n.luns {
        assert !Mapped(n.acls, i);
      }
    case _ =>
  }

  /** A node call made in order keeps every link on an enabled object. */
  lemma NodeStepKeepsLinks(t: Tree, p: Path, op: NodeOp)
    requires LinksEnabled(t) && p in t.nodes && NodeVerdict(t.nodes[p], t.objs.Keys, op) == Ok
    requires op.LinkLun? ==> op.k in t.objs && t.objs[op.k].enabled
    ensures LinksEnabled(t.(nodes := t.nodes[p := NodeStep(t.nodes[p], op)]))
  {
    var next := t.(nodes := t.nodes[p := NodeStep(t.nodes[p], op)]);
    forall q, i | LinkAt(next.nodes, q, i).Some?
      ensures LinkAt(next.nodes, q, i).value in t.objs && t.objs[LinkAt(next.nodes, q, i).value].enabled
    {
      assert LinkAt(next.nodes, q, i) == LinkAt(t.nodes, q, i) || (op.LinkLun? && LinkAt(next.nodes, q, i) == Some(op.k));
    }
  }

  // ----- how far a change reaches -----

  ghost predicate OnlyNode(t0: Tree, t1: Tree, p: Path) {
    && t1.targets == t0.targets && t1.objs == t0.objs
    && t1.nodes.Keys == t0.nodes.Keys
    && forall q | q in t0.nodes && q != p :: t1.nodes[q] == t0.nodes[q]
  }

  ghost predicate OnlyObj(t0: Tree, t1: Tree, k: Key) {
    && t1.targets == t0.targets && t1.nodes == t0.nodes
    && t0.objs.Keys <= t1.objs.Keys <= t0.objs.Keys + {k}
    && (forall q | q in t0.objs && q != k :: t1.objs[q] == t0.objs[q])
    && (k in t0.objs && t0.objs[k].enabled ==> t1.objs[k].enabled)
  }

  /** None of the reads from one to another fails. */
  ghost predicate ReadWell(misreads: nat -> bool, first: nat, last: nat) {
    forall i | first <= i < last :: !misreads(i)
  }

  /** The live tree, and the calls that change it. */
  class Configfs {
    var tree: Tree
    /** calls that changed something */
    var writes: nat
    /** per object: the saved registrations the provider returned when it was created */
    ghost var owed: map<Key, set<string>>
    /** times a linked LUN was re-pointed in place at another backstore */
    ghost var repoints: nat
    /** whether calls can fail although the kernel has no objection */
    const faults: bool
    /** which of the reads made while drift is looked for fail, and how many were made */
    const misreads: nat -> bool
    var looks: nat

    ghost predicate Inv()
      reads this
    {
      Healthy(tree, owed) == true // carried whole, not clause by clause
    }

    /** A kernel found in any well-formed state: objects already enabled are owed nothing more. */
    constructor (t: Tree, faults: bool, misreads: nat -> bool)
      requires WellFormed(t) && LinksEnabled(t) && Geometry(t.objs)
      ensures Inv() && tree == t && writes == 0 && repoints == 0 && this.faults == faults && this.misreads == misreads
    {
      this.faults, this.misreads, looks := faults, misreads, 0;
      tree, writes, repoints := t, 0, 0;
      owed := map k | k in t.objs :: {};
    }

    /** A call may fail although the kernel has no objection. */
    method Fault() returns (err: Err)
      ensures err in {Ok, Io, Inval} && (faults || err == Ok)
    {
      var fault: bool, invalid: bool := *, *;
      err := if !(fault && faults) then Ok else if invalid then Inval else Io;
    }

    /** Reading may fail; when it works it reports the tree as it is. */
    method Readable() returns (err: Err)
      ensures err in {Ok, Io} && (faults || err == Ok)
    {
      var fault: bool := *;
      err := if fault && faults then Io else Ok;
    }

    /** Reading back something that may not be there. */
    method ReadBack(there: bool) returns (err: Err)
      modifies this`looks
      ensures err in {Ok, Io} && (err == Ok <==> there && !misreads(old(looks))) && looks == old(looks) + 1
    {
      err := if there && !misreads(looks) then Ok else Io;
      looks := looks + 1;
    }

    /** One call inside a TPG.  The reconciler owes the kernel an order: a LUN is linked
        only to an enabled backstore. */
    method OnNode(p: Path, op: NodeOp) returns (err: Err)
      requires Inv() && p in tree.nodes
      requires op.LinkLun? ==> op.k in tree.objs && tree.objs[op.k].enabled
      modifies this`tree, this`writes
      ensures Inv() && OnlyNode(old(tree), tree, p)
      ensures err == Ok ==> NodeVerdict(old(tree).nodes[p], tree.objs.Keys, op) == Ok
      ensures err == Ok ==> tree.nodes[p] == NodeStep(old(tree).nodes[p], op)
      ensures err != Ok ==> tree == old(tree)
      ensures tree == old(tree) ==> writes == old(writes)
      ensures err in {Ok, Io, Inval, NodeVerdict(old(tree).nodes[p], old(tree).objs.Keys, op)}
      ensures faults || err == NodeVerdict(old(tree).nodes[p], old(tree).objs.Keys, op)
    {
      err := NodeVerdict(tree.nodes[p], tree.objs.Keys, op);
      if err != Ok { return; }
      err := Fault();
      if err != Ok { return; }
      NodeStepKeepsShape(tree.nodes[p], tree.objs.Keys, op);
      NodeStepKeepsLinks(tree, p, op);
      var next := tree.(nodes := tree.nodes[p := NodeStep(tree.nodes[p], op)]);
      if next != tree {
        tree, writes := next, writes + 1;
      }
    }

    /** One write to a storage object.  It may be enabled only once its saved records are in. */
    method OnObj(k: Key, op: ObjOp) returns (err: Err)
      requires Inv() && k in tree.objs
      requires op.Enable? ==> k in owed && owed[k] <= tree.objs[k].loaded
      modifies this`tree, this`writes
      ensures Inv() && OnlyObj(old(tree), tree, k)
      ensures err == Ok ==> tree.objs[k] == ObjStep(old(tree).objs[k], op)
      ensures err == Ok && op.SetAttr? ==> op.attr in old(tree).objs[k].attrs
      ensures err != Ok ==> tree == old(tree)
      ensures tree == old(tree) ==> writes == old(writes)
      ensures err in {Ok, Io, Inval}
      ensures faults || err == Ok || (op.SetAttr? && (op.attr !in old(tree).objs[k].attrs || (op.attr == BlockSize && !ValidBlockSize(op.val))))
    {
      if op.SetAttr? && op.attr !in tree.objs[k].attrs {
        return Io;
      }
      if op.SetAttr? && op.attr == BlockSize && !ValidBlockSize(op.val) {
        return Inval;
      }
      err := Fault();
      if err != Ok { return; }
      var next := tree.(objs := tree.objs[k := ObjStep(tree.objs[k], op)]);
      if next != tree {
        tree, writes := next, writes + 1;
      }
    }

    /** Making or removing a target, a TPG or a storage object, which takes what it was owed with it. */
    method OnDir(op: DirOp) returns (err: Err)
      requires Inv()
      modifies this`tree, this`writes, this`owed
      ensures Inv()
      ensures err == Ok ==> DirVerdict(old(tree), op) == Ok && tree == DirStep(old(tree), op)
      ensures err != Ok ==> tree == old(tree)
      ensures tree == old(tree) ==> writes == old(writes)
      ensures owed == (if err == Ok && op.RmObj? then old(owed) - {op.k} else old(owed))
      ensures err in {Ok, Io, Inval, DirVerdict(old(tree), op)}
      ensures faults || err == DirVerdict(old(tree), op)
    {
      err := DirVerdict(tree, op);
      if err != Ok { return; }
      err := Fault();
      if err != Ok { return; }
      var next := DirStep(tree, op);
      assert forall p, i :: LinkAt(next.nodes, p, i).Some? ==> LinkAt(next.nodes, p, i) == LinkAt(tree.nodes, p, i);
      if op.RmObj? {
        assert forall p, i :: LinkAt(tree.nodes, p, i) == Some(op.k) ==> Exported(tree, op.k);
        owed := owed - {op.k};
      }
      if next != tree {
        tree, writes := next, writes + 1;
      }
    }

    /** The kernel modules are reloaded under a running daemon: everything is gone. */
    method Unload()
      requires Inv()
      modifies this`tree, this`writes, this`owed
      ensures Inv() && tree == EMPTY_TREE
    {
      tree, writes, owed := EMPTY_TREE, writes + 1, map[];
    }
  }
}
