/** Saved reservation records: ParseAPTPL (appliance/aptpl.go:113-214) takes the kernel's file
    apart into records, parseAPTPLRecord (lio/aptplcheck.go:113-171) a record into fields. */
module Aptpl {
  import opened Text

  datatype Result<+T> = Ok(value: T) | Err

  const START := "PR_REG_START:"
  const END := "PR_REG_END:"
  const PLACEHOLDER := "No Registrations or Reservations"

  // ----- ParseAPTPL -----

  /** Where the loop stands: records out, the open block if there is one, stray text seen. */
  datatype Scan = Scan(out: seq<string>, block: Result<seq<string>>, stray: bool)

  predicate HasKey(lines: seq<string>, k: string) {
    exists l | l in lines :: '=' in l && KeyPart(l) == k
  }

  /** joinRecord: a block without one of the four required fields is damage. */
  function JoinRecord(lines: seq<string>): Result<string> {
    if lines != [] && HasKey(lines, "initiator_node") && HasKey(lines, "sa_res_key") && HasKey(lines, "mapped_lun")
       && HasKey(lines, "target_node")
    then Ok(Join(lines, ',')) else Err
  }

  function Step(s: Scan, raw: string): Result<Scan> {
    var line := Trim(raw);
    if START <= line then
      if s.block.Ok? then Err else Ok(s.(block := Ok([])))
    else if END <= line then
      if s.block.Err? then Err
      else
        var rec := JoinRecord(s.block.value);
        if rec.Err? then Err else Ok(Scan(s.out + [rec.value], Err, s.stray))
    else if line == "" then Ok(s)
    else if s.block.Err? then Ok(s.(stray := true))
    else if '=' !in line || ',' in line then Err
    else Ok(s.(block := Ok(s.block.value + [line])))
  }

  function ScanLines(s: Scan, lines: seq<string>): Result<Scan> {
    if lines == [] then Ok(s)
    else
      var before := ScanLines(s, lines[..|lines| - 1]);
      if before.Err? then Err else Step(before.value, lines[|lines| - 1])
  }

  const EMPTY_SCAN := Scan([], Err, false)

  function RemoveNul(s: string): string {
    if s == "" then "" else (if s[0] == 0 as char then "" else [s[0]]) + RemoveNul(s[1..])
  }

  /** isNoRegistrations (appliance/aptpl.go:191-193). */
  predicate Placeholder(s: string) { Trim(RemoveNul(s)) == PLACEHOLDER }

  function Finish(s: Scan, text: string): Result<seq<string>> {
    if s.block.Ok? then Err
    else if s.out == [] && !Placeholder(text) && (Trim(RemoveNul(text)) == "" || s.stray) then Err
    else Ok(s.out)
  }

  function Parsed(text: string): Result<seq<string>> {
    var s := ScanLines(EMPTY_SCAN, Split(text, '\n'));
    if s.Err? then Err else Finish(s.value, text)
  }

  /** ParseAPTPL: one pass over the lines. */
  method ParseAptpl(text: string) returns (r: Result<seq<string>>)
    ensures r == Parsed(text)
  {
    var out, cur: seq<string>, inBlock, sawStray := [], [], false, false;
    var lines := Split(text, '\n');
    for i := 0 to |lines|
      invariant ScanLines(EMPTY_SCAN, lines[..i]) == Ok(Scan(out, if inBlock then Ok(cur) else Err, sawStray))
    {
      assert lines[..i + 1][..i] == lines[..i];
      var line := Trim(lines[i]);
      ScanFails(EMPTY_SCAN, lines, i + 1);
      if START <= line {
        if inBlock { return Err; }
        inBlock, cur := true, [];
      } else if END <= line {
        if !inBlock { return Err; }
        var rec := JoinRecord(cur);
        if rec.Err? { return Err; }
        out, inBlock, cur := out + [rec.value], false, [];
      } else if line == "" {
      } else if !inBlock {
        sawStray := true;
      } else {
        if '=' !in line || ',' in line { return Err; }
        cur := cur + [line];
      }
    }
    assert lines[..|lines|] == lines;
    r := Finish(Scan(out, if inBlock then Ok(cur) else Err, sawStray), text);
  }

  lemma {:induction false} ScanFails(s: Scan, lines: seq<string>, i: nat)
    requires i <= |lines|
    ensures ScanLines(s, lines[..i]).Err? ==> ScanLines(s, lines).Err?
    decreases |lines| - i
  {
    if i == |lines| {
      assert lines[..i] == lines;
    } else {
      assert lines[..i + 1][..i] == lines[..i];
      ScanFails(s, lines, i + 1);
    }
  }

  // ----- zero records mean the placeholder, and nothing else -----

  /** Nothing but blank lines and strays has been seen. */
  lemma {:induction false} NoRecords(lines: seq<string>)
    requires ScanLines(EMPTY_SCAN, lines).Ok?
    ensures var s := ScanLines(EMPTY_SCAN, lines).value;
            s.out == [] && s.block.Err? && !s.stray ==> forall l | l in lines :: Trim(l) == ""
  {
    if lines != [] {
      assert lines == lines[..|lines| - 1] + [lines[|lines| - 1]];
      NoRecords(lines[..|lines| - 1]);
    }
  }

  lemma {:induction false} Harmless(lines: seq<string>)
    requires forall l | l in lines :: !(START <= Trim(l)) && !(END <= Trim(l))
    ensures ScanLines(EMPTY_SCAN, lines).Ok?
    ensures ScanLines(EMPTY_SCAN, lines).value.out == [] && ScanLines(EMPTY_SCAN, lines).value.block.Err?
  {
    if lines != [] {
      assert lines[|lines| - 1] in lines;
      Harmless(lines[..|lines| - 1]);
    }
  }

  lemma {:induction false} RemoveNulKeeps(s: string, c: char)
    requires c != 0 as char
    ensures c in RemoveNul(s) <==> c in s
  {
    if s != "" {
      assert s == [s[0]] + s[1..];
      RemoveNulKeeps(s[1..], c);
    }
  }

  /** An underscore survives every step, and the placeholder has none. */
  lemma NoMarker(text: string, l: string)
    requires Placeholder(text) && l in Split(text, '\n')
    ensures !(START <= Trim(l)) && !(END <= Trim(l))
  {
    if START <= Trim(l) || END <= Trim(l) {
      assert Trim(l)[2] == '_';
      assert '_' in Trim(l);
      TrimKeeps(l, '_');
      SplitParts(text, '\n', '_');
      RemoveNulKeeps(text, '_');
      TrimKeeps(RemoveNul(text), '_');
      assert false;
    }
  }

  lemma AllBlank(text: string)
    requires forall l | l in Split(text, '\n') :: Trim(l) == ""
    ensures Trim(RemoveNul(text)) == ""
  {
    forall c | c in RemoveNul(text) ensures IsSpace(c) {
      if !IsSpace(c) {
        assert c != '\n';
        NulOnlyLost(text, c);
        SplitParts(text, '\n', c);
        var l :| l in Split(text, '\n') && c in l;
        BlankTrims(l);
      }
    }
    BlankTrims(RemoveNul(text));
  }

  lemma {:induction false} NulOnlyLost(s: string, c: char)
    requires c in RemoveNul(s)
    ensures c in s
  {
    if s[0] == 0 as char || c != s[0] {
      NulOnlyLost(s[1..], c);
    }
  }

  /** ParseAPTPL answers "no records" exactly for the kernel's placeholder, whatever the text. */
  lemma ZeroRecords(text: string)
    ensures Parsed(text) == Ok([]) <==> Placeholder(text)
  {
    var lines := Split(text, '\n');
    if Placeholder(text) {
      forall l | l in lines ensures !(START <= Trim(l)) && !(END <= Trim(l)) {
        NoMarker(text, l);
      }
      Harmless(lines);
    } else if Parsed(text) == Ok([]) {
      NoRecords(lines);
      AllBlank(text);
    }
  }

  // ----- no field is injected -----

  /** The block lines a scan may hold: fields, with no comma to split them. */
  ghost predicate Fields(lines: seq<string>) {
    forall l | l in lines :: '=' in l && ',' !in l
  }

  /** rec is nothing but the fields of one block. */
  ghost predicate FromBlock(rec: string) {
    exists lines :: lines != [] && Fields(lines) && rec == Join(lines, ',') && Split(rec, ',') == lines
  }

  lemma {:induction false} ScanClean(lines: seq<string>)
    requires ScanLines(EMPTY_SCAN, lines).Ok?
    ensures var s := ScanLines(EMPTY_SCAN, lines).value;
            && (s.block.Ok? ==> Fields(s.block.value))
            && forall rec | rec in s.out :: FromBlock(rec)
  {
    if lines != [] {
      ScanClean(lines[..|lines| - 1]);
      var s := ScanLines(EMPTY_SCAN, lines[..|lines| - 1]).value;
      if s.block.Ok? && s.block.value != [] {
        SplitJoin(s.block.value, ',');
        assert FromBlock(Join(s.block.value, ','));
      }
    }
  }

  /** Whatever the file, each record ParseAPTPL returns splits back into the lines of one block. */
  lemma RecordsClean(text: string)
    ensures Parsed(text).Ok? ==> forall rec | rec in Parsed(text).value :: FromBlock(rec)
  {
    if Parsed(text).Ok? {
      ScanClean(Split(text, '\n'));
    }
  }

  // ----- parseAPTPLRecord -----

  datatype Record = Record(initiator: string, target: string, tpgt: int, mappedLun: int, targetLun: int,
                           key: nat, holder: bool, resType: nat)

  /** The fields the parser reads; the kernel writes more. */
  datatype Field = InitiatorNode | TargetNode | Tpgt | MappedLun | TargetLun | SaResKey | ResType | ResHolder | Other

  function FieldOf(k: string): Field {
    if k == "initiator_node" then InitiatorNode
    else if k == "target_node" then TargetNode
    else if k == "tpgt" then Tpgt
    else if k == "mapped_lun" then MappedLun
    else if k == "target_lun" then TargetLun
    else if k == "sa_res_key" then SaResKey
    else if k == "res_type" then ResType
    else if k == "res_holder" then ResHolder
    else Other
  }

  /** A value the parser accepts for its field. */
  predicate Good(f: Field, v: string) {
    match f
    case Tpgt | MappedLun | TargetLun => Atoi(v).Int?
    case SaResKey => ParseDec(v).Val? && ParseDec(v).n < 0x1_0000_0000_0000_0000
    case ResType => ParseHex(v).Val? && ParseHex(v).n < 256
    case ResHolder => v in {"0", "1"}
    case _ => true
  }

  /** The last value given for each field. */
  function Values(fields: seq<string>): map<Field, string> {
    if fields == [] then map[]
    else
      var f := Trim(fields[|fields| - 1]);
      var m := Values(fields[..|fields| - 1]);
      if '=' in f then m[FieldOf(KeyPart(f)) := ValuePart(f)] else m
  }

  predicate AllGood(fields: seq<string>) {
    forall f | f in fields :: '=' in Trim(f) ==> Good(FieldOf(KeyPart(Trim(f))), ValuePart(Trim(f)))
  }

  predicate GoodMap(m: map<Field, string>) { forall f | f in m :: Good(f, m[f]) }

  function IntAt(m: map<Field, string>, f: Field): int
    requires GoodMap(m) && f in {Tpgt, MappedLun, TargetLun}
  {
    if f in m then Atoi(m[f]).i else 0
  }

  /** The record the values make up, fields not given at their zero value. */
  function Built(m: map<Field, string>): Record
    requires GoodMap(m)
  {
    Record(if InitiatorNode in m then m[InitiatorNode] else "", if TargetNode in m then m[TargetNode] else "",
           IntAt(m, Tpgt), IntAt(m, MappedLun), IntAt(m, TargetLun),
           if SaResKey in m then ParseDec(m[SaResKey]).n else 0, ResHolder in m && m[ResHolder] == "1",
           if ResType in m then ParseHex(m[ResType]).n else 0)
  }

  const REQUIRED: set<Field> := {InitiatorNode, TargetNode, Tpgt, MappedLun, TargetLun, SaResKey, ResHolder}

  lemma {:induction false} ValuesGood(fields: seq<string>)
    requires AllGood(fields)
    ensures GoodMap(Values(fields))
  {
    if fields != [] {
      assert fields == fields[..|fields| - 1] + [fields[|fields| - 1]];
      ValuesGood(fields[..|fields| - 1]);
    }
  }

  function RecordOf(rec: string): Result<Record> {
    var fields := Split(rec, ',');
    if AllGood(fields) && REQUIRED <= Values(fields).Keys then
      ValuesGood(fields);
      Ok(Built(Values(fields)))
    else Err
  }

  /** The switch of parseAPTPLRecord. */
  function Assign(r: Record, f: Field, v: string): Record
    requires Good(f, v)
  {
    match f
    case InitiatorNode => r.(initiator := v)
    case TargetNode => r.(target := v)
    case Tpgt => r.(tpgt := Atoi(v).i)
    case MappedLun => r.(mappedLun := Atoi(v).i)
    case TargetLun => r.(targetLun := Atoi(v).i)
    case SaResKey => r.(key := ParseDec(v).n)
    case ResType => r.(resType := ParseHex(v).n)
    case ResHolder => r.(holder := v == "1")
    case _ => r
  }

  lemma BuiltNext(m: map<Field, string>, f: Field, v: string)
    requires GoodMap(m) && Good(f, v)
    ensures GoodMap(m[f := v]) && Built(m[f := v]) == Assign(Built(m), f, v)
  {
  }

  /** parseAPTPLRecord: fields are taken in turn, a later one overriding an earlier. */
  method ParseRecord(rec: string) returns (r: Result<Record>)
    ensures r == RecordOf(rec)
  {
    var fields := Split(rec, ',');
    var now := Record("", "", 0, 0, 0, 0, false, 0);
    var seen: set<Field> := {};
    for i := 0 to |fields|
      invariant AllGood(fields[..i]) && GoodMap(Values(fields[..i]))
      invariant now == Built(Values(fields[..i])) && seen == Values(fields[..i]).Keys
    {
      var f := Trim(fields[i]);
      assert fields[..i + 1][..i] == fields[..i] && fields[..i + 1] == fields[..i] + [fields[i]];
      if '=' in f {
        var k, v := FieldOf(KeyPart(f)), ValuePart(f);
        seen := seen + {k};
        if !Good(k, v) {
          assert fields[i] in fields;
          return Err;
        }
        BuiltNext(Values(fields[..i]), k, v);
        now := Assign(now, k, v);
      }
    }
    assert fields[..|fields|] == fields;
    r := if REQUIRED <= seen then Ok(now) else Err;
  }

  // ----- what the kernel writes comes back -----

  /** A registration as the kernel holds it. */
  datatype Reg = Reg(record: Record, sid: seq<string>)

  /** A name the kernel can have been given: no separator, no space at its end. */
  predicate Clean(s: string) {
    ',' !in s && '\n' !in s && (s != "" ==> !IsSpace(s[|s| - 1]))
  }

  predicate WellFormed(r: Reg) {
    && Clean(r.record.initiator) && Clean(r.record.target) && |r.sid| <= 1 && (forall x | x in r.sid :: Clean(x))
    && 0 <= r.record.tpgt <= 0xffff && 0 <= r.record.mappedLun <= 0xffff_ffff && 0 <= r.record.targetLun <= 0xffff_ffff
    && r.record.key < 0x1_0000_0000_0000_0000 && r.record.resType < 256
    && (!r.record.holder ==> r.record.resType == 0)
  }

  datatype Pair = Pair(k: string, v: string)

  function Line(p: Pair): string { p.k + "=" + p.v }

  function Lines(ps: seq<Pair>): seq<string> {
    if ps == [] then [] else Lines(ps[..|ps| - 1]) + [Line(ps[|ps| - 1])]
  }

  /** The body of one block (linux v6.6 drivers/target/target_core_pr.c, core_scsi3_update_aptpl_buf). */
  function Body(r: Reg): seq<Pair>
    requires WellFormed(r)
  {
    Who(r) + Held(r) + Scope(r) + Where(r)
  }

  function Who(r: Reg): seq<Pair> {
    [Pair("initiator_fabric", "iSCSI"), Pair("initiator_node", r.record.initiator)]
    + (if r.sid == [] then [] else [Pair("initiator_sid", r.sid[0])])
  }

  function Held(r: Reg): seq<Pair>
    requires WellFormed(r)
  {
    [Pair("sa_res_key", Decimal(r.record.key)), Pair("res_holder", if r.record.holder then "1" else "0")]
    + (if r.record.holder then [Pair("res_type", Hex2(r.record.resType))] else [])
  }

  function Scope(r: Reg): seq<Pair>
    requires WellFormed(r)
  {
    [Pair("res_scope", "00"), Pair("res_all_tg_pt", "0"), Pair("mapped_lun", Decimal(r.record.mappedLun)),
     Pair("target_fabric", "iSCSI")]
  }

  function Where(r: Reg): seq<Pair>
    requires WellFormed(r)
  {
    [Pair("target_node", r.record.target), Pair("tpgt", Decimal(r.record.tpgt)), Pair("port_rtpi", "1"),
     Pair("target_lun", Decimal(r.record.targetLun))]
  }

  predicate CleanKey(k: string) {
    k != "" && '=' !in k && ',' !in k && '\n' !in k && !IsSpace(k[0]) && k[0] != 'P'
  }

  /** A pair that is read back as it was written. */
  predicate PairOk(p: Pair) { CleanKey(p.k) && Clean(p.v) && Good(FieldOf(p.k), p.v) }

  /** A field line survives trimming and is cut where it was put together. */
  lemma LineBack(p: Pair)
    requires CleanKey(p.k) && Clean(p.v)
    ensures Trim(Line(p)) == Line(p) && ',' !in Line(p) && '\n' !in Line(p) && '=' in Line(p)
    ensures KeyPart(Line(p)) == p.k && ValuePart(Line(p)) == p.v
    ensures Line(p) != "" && Line(p)[0] != 'P'
  {
    CutField(p.k, p.v);
    TrimClean(Line(p));
  }

  function PairMap(ps: seq<Pair>): map<Field, string> {
    if ps == [] then map[] else PairMap(ps[..|ps| - 1])[FieldOf(ps[|ps| - 1].k) := ps[|ps| - 1].v]
  }

  lemma {:induction false} LinesBack(ps: seq<Pair>)
    requires forall p | p in ps :: PairOk(p)
    ensures Values(Lines(ps)) == PairMap(ps) && AllGood(Lines(ps)) && Fields(Lines(ps)) && |Lines(ps)| == |ps|
    ensures forall i | 0 <= i < |ps| :: Lines(ps)[i] == Line(ps[i])
  {
    if ps != [] {
      var init, last := ps[..|ps| - 1], ps[|ps| - 1];
      assert ps == init + [last];
      LinesBack(init);
      assert PairOk(last);
      LineBack(last);
      assert Lines(ps)[..|Lines(ps)| - 1] == Lines(init);
    }
  }

  /** A field that is set, and only ever to v, ends up as v. */
  lemma {:induction false} PairMapSet(ps: seq<Pair>, f: Field, v: string)
    requires forall p | p in ps && FieldOf(p.k) == f :: p.v == v
    ensures (exists p :: p in ps && FieldOf(p.k) == f) <==> f in PairMap(ps)
    ensures f in PairMap(ps) ==> PairMap(ps)[f] == v
  {
    if ps != [] {
      assert ps == ps[..|ps| - 1] + [ps[|ps| - 1]];
      PairMapSet(ps[..|ps| - 1], f, v);
    }
  }

  lemma DigitsClean(n: nat)
    ensures Clean(Decimal(n))
  {
    DecimalParses(n);
    assert Decimal(n)[|Decimal(n)| - 1] in Decimal(n);
  }

  lemma KeysRead()
    ensures FieldOf("initiator_node") == InitiatorNode && FieldOf("target_node") == TargetNode && FieldOf("tpgt") == Tpgt
    ensures FieldOf("mapped_lun") == MappedLun && FieldOf("target_lun") == TargetLun && FieldOf("sa_res_key") == SaResKey
    ensures FieldOf("res_type") == ResType && FieldOf("res_holder") == ResHolder
  {
  }

  lemma KeysPassedOver()
    ensures FieldOf("initiator_fabric") == Other && FieldOf("initiator_sid") == Other && FieldOf("res_scope") == Other
    ensures FieldOf("res_all_tg_pt") == Other && FieldOf("target_fabric") == Other && FieldOf("port_rtpi") == Other
  {
  }

  /** What the block says of each field the parser reads. */
  function Want(r: Record, f: Field): string
    requires r.tpgt >= 0 && r.mappedLun >= 0 && r.targetLun >= 0 && r.resType < 256
  {
    match f
    case InitiatorNode => r.initiator case TargetNode => r.target case Tpgt => Decimal(r.tpgt)
    case MappedLun => Decimal(r.mappedLun) case TargetLun => Decimal(r.targetLun) case SaResKey => Decimal(r.key)
    case ResType => Hex2(r.resType) case ResHolder => if r.holder then "1" else "0" case Other => ""
  }

  lemma WantGood(r: Reg, f: Field)
    requires WellFormed(r)
    ensures Clean(Want(r.record, f)) && Good(f, Want(r.record, f))
  {
    match f
    case Tpgt => DigitsClean(r.record.tpgt); AtoiDecimal(r.record.tpgt);
    case MappedLun => DigitsClean(r.record.mappedLun); AtoiDecimal(r.record.mappedLun);
    case TargetLun => DigitsClean(r.record.targetLun); AtoiDecimal(r.record.targetLun);
    case SaResKey => DigitsClean(r.record.key); DecimalParses(r.record.key);
    case ResType => HexParses(r.record.resType);
    case _ =>
  }

  /** A pair is sound, and says of its field what the registration says. */
  predicate Says(r: Reg, p: Pair)
    requires WellFormed(r)
  {
    CleanKey(p.k) && Clean(p.v) && (FieldOf(p.k) != Other ==> p.v == Want(r.record, FieldOf(p.k)))
  }

  lemma SaysRead(r: Reg, k: string, f: Field)
    requires WellFormed(r) && CleanKey(k) && FieldOf(k) == f && f != Other
    ensures Says(r, Pair(k, Want(r.record, f)))
  {
    WantGood(r, f);
  }

  lemma SaysOther(r: Reg, k: string, v: string)
    requires WellFormed(r) && CleanKey(k) && FieldOf(k) == Other && Clean(v)
    ensures Says(r, Pair(k, v))
  {
  }

  lemma KeyWho()
    ensures CleanKey("initiator_fabric") && CleanKey("initiator_node") && CleanKey("initiator_sid")
  {
  }

  lemma KeyHeld()
    ensures CleanKey("sa_res_key") && CleanKey("res_holder") && CleanKey("res_type")
  {
  }

  lemma KeyScope()
    ensures CleanKey("res_scope") && CleanKey("res_all_tg_pt") && CleanKey("mapped_lun")
  {
  }

  lemma KeyWhere()
    ensures CleanKey("target_fabric") && CleanKey("target_node") && CleanKey("tpgt")
  {
  }

  lemma KeyPort()
    ensures CleanKey("port_rtpi") && CleanKey("target_lun") && Clean("iSCSI") && Clean("00") && Clean("0") && Clean("1")
  {
  }

  lemma WhoSays(r: Reg)
    requires WellFormed(r)
    ensures forall p | p in Who(r) :: Says(r, p)
  {
    KeysRead(); KeysPassedOver(); KeyWho(); KeyPort();
    SaysOther(r, "initiator_fabric", "iSCSI");
    SaysRead(r, "initiator_node", InitiatorNode);
    if r.sid != [] {
      assert Clean(r.sid[0]);
      SaysOther(r, "initiator_sid", r.sid[0]);
    }
  }

  lemma HeldSays(r: Reg)
    requires WellFormed(r)
    ensures forall p | p in Held(r) :: Says(r, p)
  {
    KeysRead(); KeyHeld();
    SaysRead(r, "sa_res_key", SaResKey);
    SaysRead(r, "res_holder", ResHolder);
    SaysRead(r, "res_type", ResType);
  }

  lemma ScopeSays(r: Reg)
    requires WellFormed(r)
    ensures forall p | p in Scope(r) :: Says(r, p)
  {
    KeysRead(); KeysPassedOver(); KeyScope(); KeyWhere(); KeyPort();
    SaysOther(r, "res_scope", "00");
    SaysOther(r, "res_all_tg_pt", "0");
    SaysRead(r, "mapped_lun", MappedLun);
    SaysOther(r, "target_fabric", "iSCSI");
  }

  lemma WhereSays(r: Reg)
    requires WellFormed(r)
    ensures forall p | p in Where(r) :: Says(r, p)
  {
    KeysRead(); KeysPassedOver(); KeyWhere(); KeyPort();
    SaysRead(r, "target_node", TargetNode);
    SaysRead(r, "tpgt", Tpgt);
    SaysOther(r, "port_rtpi", "1");
    SaysRead(r, "target_lun", TargetLun);
  }

  lemma BodySays(r: Reg, p: Pair)
    requires WellFormed(r) && p in Body(r)
    ensures Says(r, p) && PairOk(p)
  {
    WhoSays(r);
    HeldSays(r);
    ScopeSays(r);
    WhereSays(r);
    WantGood(r, FieldOf(p.k));
  }

  lemma InBody(r: Reg, p: Pair, f: Field)
    requires WellFormed(r) && (p in Who(r) || p in Held(r) || p in Scope(r) || p in Where(r)) && FieldOf(p.k) == f
    ensures exists q :: q in Body(r) && FieldOf(q.k) == f
  {
    assert p in Body(r);
  }

  /** The keys of a block, whatever else is optional. */
  lemma BodyHas(r: Reg, f: Field)
    requires WellFormed(r) && f in REQUIRED
    ensures exists p :: p in Body(r) && FieldOf(p.k) == f
  {
    KeysRead();
    match f
    case InitiatorNode => InBody(r, Who(r)[1], f);
    case SaResKey => InBody(r, Held(r)[0], f);
    case ResHolder => InBody(r, Held(r)[1], f);
    case MappedLun => InBody(r, Scope(r)[2], f);
    case TargetNode => InBody(r, Where(r)[0], f);
    case Tpgt => InBody(r, Where(r)[1], f);
    case TargetLun => InBody(r, Where(r)[3], f);
  }

  /** The type is written for a holder, and for nobody else. */
  lemma TypeWritten(r: Reg)
    requires WellFormed(r)
    ensures (exists p :: p in Body(r) && FieldOf(p.k) == ResType) <==> r.record.holder
  {
    KeysRead();
    KeysPassedOver();
    if r.record.holder {
      assert Pair("res_type", Hex2(r.record.resType)) in Held(r);
      assert Pair("res_type", Hex2(r.record.resType)) in Body(r);
    } else {
      forall p | p in Body(r) ensures FieldOf(p.k) != ResType {
        assert p in Who(r) || p in Held(r) || p in Scope(r) || p in Where(r);
      }
    }
  }

  lemma BodyValues(r: Reg, f: Field)
    requires WellFormed(r) && f != Other
    ensures f in PairMap(Body(r)) <==> f in REQUIRED || r.record.holder
    ensures f in PairMap(Body(r)) ==> PairMap(Body(r))[f] == Want(r.record, f)
  {
    forall p | p in Body(r) ensures Says(r, p) {
      BodySays(r, p);
    }
    PairMapSet(Body(r), f, Want(r.record, f));
    if f in REQUIRED {
      BodyHas(r, f);
    } else {
      TypeWritten(r);
    }
  }

  /** What Built makes of a registration's own values is the registration's record. */
  lemma BuiltIs(r: Reg, m: map<Field, string>)
    requires WellFormed(r) && GoodMap(m) && REQUIRED <= m.Keys && (ResType in m <==> r.record.holder)
    requires forall f | f in m && f != Other :: m[f] == Want(r.record, f)
    ensures Built(m) == r.record
  {
    AtoiDecimal(r.record.tpgt);
    AtoiDecimal(r.record.mappedLun);
    AtoiDecimal(r.record.targetLun);
    DecimalParses(r.record.key);
    HexParses(r.record.resType);
  }

  function RecordText(r: Reg): string
    requires WellFormed(r)
  {
    Join(Lines(Body(r)), ',')
  }

  lemma RecordFrom(text: string, fields: seq<string>)
    requires Split(text, ',') == fields && AllGood(fields) && REQUIRED <= Values(fields).Keys && GoodMap(Values(fields))
    ensures RecordOf(text) == Ok(Built(Values(fields)))
  {
  }

  lemma BodyRead(r: Reg)
    requires WellFormed(r)
    ensures AllGood(Lines(Body(r))) && Values(Lines(Body(r))) == PairMap(Body(r)) && Split(RecordText(r), ',') == Lines(Body(r))
  {
    forall p | p in Body(r) ensures PairOk(p) {
      BodySays(r, p);
    }
    LinesBack(Body(r));
    SplitJoin(Lines(Body(r)), ',');
  }

  lemma BodyBuilt(r: Reg)
    requires WellFormed(r) && GoodMap(PairMap(Body(r)))
    ensures REQUIRED <= PairMap(Body(r)).Keys && Built(PairMap(Body(r))) == r.record
  {
    var m := PairMap(Body(r));
    forall f: Field | f != Other
      ensures f in m <==> f in REQUIRED || r.record.holder
      ensures f in m ==> m[f] == Want(r.record, f)
    {
      BodyValues(r, f);
    }
    BuiltIs(r, m);
  }

  /** parseAPTPLRecord recovers every field of a block's record. */
  lemma RecordBack(r: Reg)
    requires WellFormed(r)
    ensures RecordOf(RecordText(r)) == Ok(r.record)
  {
    BodyRead(r);
    ValuesGood(Lines(Body(r)));
    BodyBuilt(r);
    RecordFrom(RecordText(r), Lines(Body(r)));
  }

  // ----- framing -----

  /** One block as the kernel frames it. */
  function Block(r: Reg, n: nat): seq<string>
    requires WellFormed(r)
  {
    [START + " " + Decimal(n)] + Lines(Body(r)) + [END + " " + Decimal(n)]
  }

  function Blocks(rs: seq<Reg>): seq<string>
    requires forall r | r in rs :: WellFormed(r)
  {
    if rs == [] then [] else Blocks(rs[..|rs| - 1]) + Block(rs[|rs| - 1], |rs| - 1)
  }

  /** The file: lines, each ended, and the terminator the kernel writes too. */
  function FileText(rs: seq<Reg>): string
    requires forall r | r in rs :: WellFormed(r)
  {
    Join(Blocks(rs) + [[0 as char]], '\n')
  }

  function RecordTexts(rs: seq<Reg>): seq<string>
    requires forall r | r in rs :: WellFormed(r)
  {
    if rs == [] then [] else RecordTexts(rs[..|rs| - 1]) + [RecordText(rs[|rs| - 1])]
  }

  lemma {:induction false} ScanOn(s: Scan, a: seq<string>, b: seq<string>)
    ensures ScanLines(s, a + b) == if ScanLines(s, a).Err? then Err else ScanLines(ScanLines(s, a).value, b)
  {
    if b == [] {
      assert a + b == a;
    } else {
      assert (a + b)[..|a + b| - 1] == a + b[..|b| - 1];
      ScanOn(s, a, b[..|b| - 1]);
    }
  }

  lemma {:induction false} ScanBody(s: Scan, ps: seq<Pair>)
    requires s.block.Ok? && forall p | p in ps :: PairOk(p)
    ensures ScanLines(s, Lines(ps)) == Ok(s.(block := Ok(s.block.value + Lines(ps))))
  {
    if ps != [] {
      var init, last := ps[..|ps| - 1], ps[|ps| - 1];
      assert ps == init + [last];
      ScanBody(s, init);
      assert PairOk(last);
      LineBack(last);
      NotMarker(Line(last));
      assert Lines(ps)[..|Lines(ps)| - 1] == Lines(init);
      assert s.block.value + Lines(ps) == s.block.value + Lines(init) + [Line(last)];
    } else {
      assert s.block.value + Lines(ps) == s.block.value;
    }
  }

  lemma NotMarker(l: string)
    requires l != "" && l[0] != 'P'
    ensures !(START <= l) && !(END <= l)
  {
    assert START[0] == 'P' && END[0] == 'P';
  }

  /** Scanning one block adds its record. */
  lemma ScanBlock(s: Scan, r: Reg, n: nat)
    requires WellFormed(r) && s.block.Err?
    ensures ScanLines(s, Block(r, n)) == Ok(s.(out := s.out + [RecordText(r)]))
  {
    forall p | p in Body(r) ensures PairOk(p) {
      BodySays(r, p);
    }
    var first, last := START + " " + Decimal(n), END + " " + Decimal(n);
    DigitsClean(n);
    MarkerBack(n);
    var open := s.(block := Ok([]));
    assert ScanLines(s, [first]) == Step(s, first) by {
      assert [first][..0] == [];
    }
    ScanBody(open, Body(r));
    ScanOn(s, [first], Lines(Body(r)));
    ScanOn(s, [first] + Lines(Body(r)), [last]);
    var full := s.(block := Ok(Lines(Body(r))));
    assert open.block.value + Lines(Body(r)) == Lines(Body(r));
    assert ScanLines(full, [last]) == Step(full, last) by {
      assert [last][..0] == [];
    }
    BodyJoins(r);
  }

  lemma MarkerBack(n: nat)
    ensures Trim(START + " " + Decimal(n)) == START + " " + Decimal(n)
    ensures Trim(END + " " + Decimal(n)) == END + " " + Decimal(n)
    ensures !(START <= END + " " + Decimal(n))
    ensures '\n' !in START + " " + Decimal(n) && '\n' !in END + " " + Decimal(n)
  {
    DigitsClean(n);
    TrimClean(START + " " + Decimal(n));
    TrimClean(END + " " + Decimal(n));
    assert (END + " " + Decimal(n))[7] == 'E' && START[7] == 'S';
  }

  /** A block of a well-formed registration has the fields joinRecord insists on. */
  lemma BodyJoins(r: Reg)
    requires WellFormed(r)
    ensures JoinRecord(Lines(Body(r))) == Ok(RecordText(r))
  {
    forall p | p in Body(r) ensures PairOk(p) {
      BodySays(r, p);
    }
    LinesBack(Body(r));
    BodyKey(r, Pair("initiator_node", r.record.initiator));
    BodyKey(r, Pair("sa_res_key", Decimal(r.record.key)));
    BodyKey(r, Pair("mapped_lun", Decimal(r.record.mappedLun)));
    BodyKey(r, Pair("target_node", r.record.target));
  }

  lemma BodyKey(r: Reg, p: Pair)
    requires WellFormed(r) && (p in Who(r) || p in Held(r) || p in Scope(r) || p in Where(r))
    ensures HasKey(Lines(Body(r)), p.k)
  {
    assert p in Body(r);
    forall q | q in Body(r) ensures PairOk(q) {
      BodySays(r, q);
    }
    LinesBack(Body(r));
    LineBack(p);
    var i :| 0 <= i < |Body(r)| && Body(r)[i] == p;
    assert Lines(Body(r))[i] in Lines(Body(r));
  }

  lemma {:induction false} ScanBlocks(rs: seq<Reg>)
    requires forall r | r in rs :: WellFormed(r)
    ensures ScanLines(EMPTY_SCAN, Blocks(rs)) == Ok(Scan(RecordTexts(rs), Err, false))
  {
    if rs != [] {
      assert rs[|rs| - 1] in rs;
      ScanBlocks(rs[..|rs| - 1]);
      ScanOn(EMPTY_SCAN, Blocks(rs[..|rs| - 1]), Block(rs[|rs| - 1], |rs| - 1));
      ScanBlock(Scan(RecordTexts(rs[..|rs| - 1]), Err, false), rs[|rs| - 1], |rs| - 1);
    }
  }

  lemma {:induction false} BlocksOneLine(rs: seq<Reg>, l: string)
    requires (forall r | r in rs :: WellFormed(r)) && l in Blocks(rs)
    ensures '\n' !in l
  {
    var r, n := rs[|rs| - 1], |rs| - 1;
    assert r in rs;
    if l in Blocks(rs[..n]) {
      BlocksOneLine(rs[..n], l);
    } else {
      MarkerBack(n);
      forall p | p in Body(r) ensures PairOk(p) {
        BodySays(r, p);
      }
      LinesBack(Body(r));
      if l in Lines(Body(r)) {
        var i :| 0 <= i < |Lines(Body(r))| && Lines(Body(r))[i] == l;
        assert Body(r)[i] in Body(r);
        LineBack(Body(r)[i]);
      }
    }
  }

  lemma FileParses(rs: seq<Reg>)
    requires rs != [] && forall r | r in rs :: WellFormed(r)
    ensures Parsed(FileText(rs)) == Ok(RecordTexts(rs))
  {
    var nul := [0 as char];
    var lines := Blocks(rs) + [nul];
    forall l | l in lines ensures '\n' !in l {
      if l in Blocks(rs) {
        BlocksOneLine(rs, l);
      }
    }
    SplitJoin(lines, '\n');
    ScanBlocks(rs);
    ScanOn(EMPTY_SCAN, Blocks(rs), [nul]);
    NulStrays(Scan(RecordTexts(rs), Err, false));
  }

  lemma NulStrays(s: Scan)
    requires s.block.Err?
    ensures ScanLines(s, [[0 as char]]) == Ok(s.(stray := true))
  {
    var nul := [0 as char];
    TrimClean(nul);
    NotMarker(nul);
    assert [nul][..0] == [];
  }

  lemma {:induction false} TextsAt(rs: seq<Reg>)
    requires forall r | r in rs :: WellFormed(r)
    ensures |RecordTexts(rs)| == |rs| && forall i | 0 <= i < |rs| :: RecordTexts(rs)[i] == RecordText(rs[i])
  {
    if rs != [] {
      TextsAt(rs[..|rs| - 1]);
    }
  }

  /** The kernel's file comes apart into exactly its registrations, each with every field as it
      was: ParseAPTPL after framing, then parseAPTPLRecord, is the identity. */
  lemma RoundTrip(rs: seq<Reg>)
    requires rs != [] && forall r | r in rs :: WellFormed(r)
    ensures Parsed(FileText(rs)) == Ok(RecordTexts(rs)) && |RecordTexts(rs)| == |rs|
    ensures forall i | 0 <= i < |rs| :: RecordOf(RecordTexts(rs)[i]) == Ok(rs[i].record)
  {
    FileParses(rs);
    TextsAt(rs);
    forall i | 0 <= i < |rs| ensures RecordOf(RecordTexts(rs)[i]) == Ok(rs[i].record) {
      RecordBack(rs[i]);
    }
  }
}
