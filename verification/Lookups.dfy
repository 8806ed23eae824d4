/** What an operation looks up and checks before it changes anything
    (appliance/model.go:150-214, appliance/hosts.go, appliance/objects.go). */
module Lookups {
  import opened LioConfig
  import opened Diff
  import opened Database
  import opened Mutations
  import opened DesiredLio

  const MIN_VOLUME_SIZE := 0x10_0000
  const GRANULARITY := 4096

  /** checkSize (appliance/objects.go:57-69). */
  predicate GoodSize(size: int) { size >= MIN_VOLUME_SIZE && size % GRANULARITY == 0 }

  /** What a reference names: a name within its kind, else a UUID of that kind. */
  ghost predicate Resolves(os: seq<Object>, kind: Kind, ref: string, o: Option<Object>) {
    if o.Some? then o.value in os && o.value.kind == kind && (o.value.name == ref || (o.value.uuid == ref && NameFree(os, kind, ref)))
    else NameFree(os, kind, ref) && (Find(os, ref).Some? ==> Find(os, ref).value.kind != kind)
  }

  /** The first object of the kind with the name. */
  function Called(os: seq<Object>, kind: Kind, name: string): Option<Object> {
    if os == [] then None else if os[0].kind == kind && os[0].name == name then Some(os[0]) else Called(os[1..], kind, name)
  }

  /** The object a reference names. */
  function ObjectOf(os: seq<Object>, kind: Kind, ref: string): Option<Object> {
    var byName, byUuid := Called(os, kind, ref), Find(os, ref);
    if byName.Some? then byName else if byUuid.Some? && byUuid.value.kind == kind then byUuid else None
  }

  function HostCalled(hs: seq<Host>, name: string): Option<Host> {
    if hs == [] then None else if hs[0].name == name then Some(hs[0]) else HostCalled(hs[1..], name)
  }

  function HostWith(hs: seq<Host>, uuid: string): Option<Host> {
    if hs == [] then None else if hs[0].uuid == uuid then Some(hs[0]) else HostWith(hs[1..], uuid)
  }

  /** The host a reference names. */
  function HostOf(hs: seq<Host>, ref: string): Option<Host> {
    if HostCalled(hs, ref).Some? then HostCalled(hs, ref) else HostWith(hs, ref)
  }

  /** objectByName (appliance/model.go:161-168). */
  method ByName(os: seq<Object>, kind: Kind, name: string) returns (o: Option<Object>)
    ensures o == Called(os, kind, name)
    ensures o.Some? ==> o.value in os && o.value.kind == kind && o.value.name == name
    ensures o.None? <==> NameFree(os, kind, name)
  {
    for i := 0 to |os|
      invariant forall j | 0 <= j < i :: !(os[j].kind == kind && os[j].name == name)
      invariant Called(os, kind, name) == Called(os[i..], kind, name)
    {
      assert os[i..][1..] == os[i + 1..];
      if os[i].kind == kind && os[i].name == name {
        return Some(os[i]);
      }
    }
    return None;
  }

  /** resolveObject (appliance/model.go:177-185). */
  method ResolveObject(os: seq<Object>, kind: Kind, ref: string) returns (o: Option<Object>)
    ensures Resolves(os, kind, ref, o) && o == ObjectOf(os, kind, ref)
  {
    o := ByName(os, kind, ref);
    if o.None? {
      o := Lookup(os, ref);
      FindIs(os, ref);
      if o.Some? && o.value.kind != kind {
        o := None;
      }
    }
  }

  /** resolveHost (appliance/model.go:199-204). */
  method ResolveHost(hs: seq<Host>, ref: string) returns (h: Option<Host>)
    ensures h.Some? ==> h.value in hs && (h.value.name == ref || h.value.uuid == ref)
    ensures h.None? <==> forall x | x in hs :: x.name != ref && x.uuid != ref
    ensures h == HostOf(hs, ref)
  {
    for i := 0 to |hs|
      invariant forall j | 0 <= j < i :: hs[j].name != ref
      invariant HostCalled(hs, ref) == HostCalled(hs[i..], ref)
    {
      assert hs[i..][1..] == hs[i + 1..];
      if hs[i].name == ref {
        return Some(hs[i]);
      }
    }
    for i := 0 to |hs|
      invariant forall j | 0 <= j < i :: hs[j].uuid != ref
      invariant HostCalled(hs, ref) == None && HostWith(hs, ref) == HostWith(hs[i..], ref)
    {
      assert hs[i..][1..] == hs[i + 1..];
      if hs[i].uuid == ref {
        return Some(hs[i]);
      }
    }
    return None;
  }

  datatype Seat = Free | Taken | Same

  /** Whether a connection can be made: not if the pair or the LUN is in use, and a repeat of
      the same connection is no conflict (appliance/hosts.go:330-347). */
  method SeatOf(cs: seq<Connection>, c: Connection) returns (s: Seat)
    ensures s == Free <==> ConnFree(cs, c)
    ensures s == Seat.Same ==> c in cs
    ensures Distinct(cs, PairKey) && Distinct(cs, LunKeyOf) ==> (s == Seat.Same <==> c in cs)
    ensures s == Taken ==> exists x :: x in cs && x.host == c.host && ((x.obj == c.obj) != (x.lun == c.lun))
  {
    for i := 0 to |cs|
      invariant forall j | 0 <= j < i :: !(cs[j].host == c.host && (cs[j].obj == c.obj || cs[j].lun == c.lun))
    {
      if cs[i].host == c.host && (cs[i].obj == c.obj || cs[i].lun == c.lun) {
        assert cs[i] in cs;
        if Distinct(cs, PairKey) && Distinct(cs, LunKeyOf) {
          SeatOnce(cs, c, cs[i]);
        }
        return if cs[i] == c then Seat.Same else Taken;
      }
    }
    return Free;
  }

  lemma SeatOnce(cs: seq<Connection>, c: Connection, x: Connection)
    requires Distinct(cs, PairKey) && Distinct(cs, LunKeyOf) && x in cs && x.host == c.host && (x.obj == c.obj || x.lun == c.lun)
    ensures c in cs ==> x == c
  {
    if c in cs && x.obj == c.obj {
      KeyUnique(cs, PairKey, x, c);
    } else if c in cs {
      KeyUnique(cs, LunKeyOf, x, c);
    }
  }

  /** connectionsOf and connectionsOfHost, as the question their callers ask. */
  method AnyConnection(cs: seq<Connection>, obj: Option<string>, host: Option<string>) returns (any: bool)
    ensures any <==> exists c :: c in cs && (obj.Some? ==> c.obj == obj.value) && (host.Some? ==> c.host == host.value)
  {
    for i := 0 to |cs|
      invariant forall j | 0 <= j < i :: !((obj.Some? ==> cs[j].obj == obj.value) && (host.Some? ==> cs[j].host == host.value))
    {
      if (obj.Some? ==> cs[i].obj == obj.value) && (host.Some? ==> cs[i].host == host.value) {
        assert cs[i] in cs;
        return true;
      }
    }
    return false;
  }

  /** The binding set a request leads to: replace, then add, then remove (appliance/hosts.go:169-186). */
  method NextBindings(have: seq<string>, replace: Option<seq<string>>, add: seq<string>, remove: seq<string>)
    returns (next: seq<string>)
    ensures forall q :: q in next <==> (q in (if replace.Some? then replace.value else have) || q in add) && q !in remove
  {
    var base := if replace.Some? then replace.value else have;
    var all := base;
    for i := 0 to |add|
      invariant forall q :: q in all <==> q in base || q in add[..i]
    {
      assert add[..i + 1] == add[..i] + [add[i]];
      if add[i] !in all {
        all := all + [add[i]];
      }
    }
    assert add[..|add|] == add;
    next := Filter(all, q => q !in remove);
    forall q ensures q in next <==> q in all && q !in remove {
      KeepIs(all, (q: string) => q !in remove, q);
    }
  }
}
