/**
 * The server entity's configuration and its defaults. A `ServerConfig` can be
 * obtained three ways: deserialised from JSON with absent fields defaulted,
 * built with the builder, or converted from a partial config; all three use
 * the same default values.
 */
module ServerEntity {
  import W = Wrappers
  import opened Json

  const DEFAULT_ENABLED: bool := true
  const DEFAULT_AUTO_PRUNE: bool := true
  const DEFAULT_SEND_ALERTS: bool := true
  const DEFAULT_CPU_WARNING: real := 90.0
  const DEFAULT_CPU_CRITICAL: real := 99.0
  const DEFAULT_MEM_WARNING: real := 75.0
  const DEFAULT_MEM_CRITICAL: real := 95.0
  const DEFAULT_DISK_WARNING: real := 75.0
  const DEFAULT_DISK_CRITICAL: real := 95.0
  /** `String::default()`: the default of `region`. */
  const STRING_DEFAULT: string := ""

  /** Percent thresholds are kept as reals; the source's f32/f64 split is not modelled. */
  datatype ServerConfig = ServerConfig(
    address: string,
    enabled: bool,
    autoPrune: bool,
    sendUnreachableAlerts: bool,
    sendCpuAlerts: bool,
    sendMemAlerts: bool,
    sendDiskAlerts: bool,
    sendTempAlerts: bool,
    region: string,
    cpuWarning: real,
    cpuCritical: real,
    memWarning: real,
    memCritical: real,
    diskWarning: real,
    diskCritical: real)

  /** Every field optional: the partial config, and the builder's state before `build`. */
  datatype PartialServerConfig = PartialServerConfig(
    address: W.Option<string>,
    enabled: W.Option<bool>,
    autoPrune: W.Option<bool>,
    sendUnreachableAlerts: W.Option<bool>,
    sendCpuAlerts: W.Option<bool>,
    sendMemAlerts: W.Option<bool>,
    sendDiskAlerts: W.Option<bool>,
    sendTempAlerts: W.Option<bool>,
    region: W.Option<string>,
    cpuWarning: W.Option<real>,
    cpuCritical: W.Option<real>,
    memWarning: W.Option<real>,
    memCritical: W.Option<real>,
    diskWarning: W.Option<real>,
    diskCritical: W.Option<real>)

  const NoFields: PartialServerConfig := PartialServerConfig(
    W.None, W.None, W.None, W.None, W.None, W.None, W.None, W.None,
    W.None, W.None, W.None, W.None, W.None, W.None, W.None)

  // ---- Field vocabulary, to speak about every field at once ----

  datatype FieldName =
    | Address | Enabled | AutoPrune
    | SendUnreachableAlerts | SendCpuAlerts | SendMemAlerts | SendDiskAlerts | SendTempAlerts
    | Region
    | CpuWarning | CpuCritical | MemWarning | MemCritical | DiskWarning | DiskCritical

  datatype FieldValue = Text(s: string) | Flag(b: bool) | Number(n: real) {
    function AsText(): string { if Text? then s else "" }
    function AsFlag(): bool { if Flag? then b else false }
    function AsNumber(): real { if Number? then n else 0.0 }
  }

  /** The JSON key of a field. */
  function Key(f: FieldName): string {
    match f
    case Address => "address"
    case Enabled => "enabled"
    case AutoPrune => "auto_prune"
    case SendUnreachableAlerts => "send_unreachable_alerts"
    case SendCpuAlerts => "send_cpu_alerts"
    case SendMemAlerts => "send_mem_alerts"
    case SendDiskAlerts => "send_disk_alerts"
    case SendTempAlerts => "send_temp_alerts"
    case Region => "region"
    case CpuWarning => "cpu_warning"
    case CpuCritical => "cpu_critical"
    case MemWarning => "mem_warning"
    case MemCritical => "mem_critical"
    case DiskWarning => "disk_warning"
    case DiskCritical => "disk_critical"
  }

  /** Whether a value has the type of a field. */
  predicate Fits(f: FieldName, v: FieldValue) {
    match f
    case Address | Region => v.Text?
    case CpuWarning | CpuCritical | MemWarning | MemCritical | DiskWarning | DiskCritical => v.Number?
    case _ => v.Flag?
  }

  function Get(c: ServerConfig, f: FieldName): (v: FieldValue)
    ensures Fits(f, v)
  {
    match f
    case Address => Text(c.address)
    case Enabled => Flag(c.enabled)
    case AutoPrune => Flag(c.autoPrune)
    case SendUnreachableAlerts => Flag(c.sendUnreachableAlerts)
    case SendCpuAlerts => Flag(c.sendCpuAlerts)
    case SendMemAlerts => Flag(c.sendMemAlerts)
    case SendDiskAlerts => Flag(c.sendDiskAlerts)
    case SendTempAlerts => Flag(c.sendTempAlerts)
    case Region => Text(c.region)
    case CpuWarning => Number(c.cpuWarning)
    case CpuCritical => Number(c.cpuCritical)
    case MemWarning => Number(c.memWarning)
    case MemCritical => Number(c.memCritical)
    case DiskWarning => Number(c.diskWarning)
    case DiskCritical => Number(c.diskCritical)
  }

  function Lift<T>(o: W.Option<T>, wrap: T -> FieldValue): W.Option<FieldValue> {
    match o
    case Some(x) => W.Some(wrap(x))
    case None => W.None
  }

  function GetPartial(p: PartialServerConfig, f: FieldName): (v: W.Option<FieldValue>)
    ensures v.Some? ==> Fits(f, v.value)
  {
    match f
    case Address => Lift(p.address, s => Text(s))
    case Enabled => Lift(p.enabled, b => Flag(b))
    case AutoPrune => Lift(p.autoPrune, b => Flag(b))
    case SendUnreachableAlerts => Lift(p.sendUnreachableAlerts, b => Flag(b))
    case SendCpuAlerts => Lift(p.sendCpuAlerts, b => Flag(b))
    case SendMemAlerts => Lift(p.sendMemAlerts, b => Flag(b))
    case SendDiskAlerts => Lift(p.sendDiskAlerts, b => Flag(b))
    case SendTempAlerts => Lift(p.sendTempAlerts, b => Flag(b))
    case Region => Lift(p.region, s => Text(s))
    case CpuWarning => Lift(p.cpuWarning, n => Number(n))
    case CpuCritical => Lift(p.cpuCritical, n => Number(n))
    case MemWarning => Lift(p.memWarning, n => Number(n))
    case MemCritical => Lift(p.memCritical, n => Number(n))
    case DiskWarning => Lift(p.diskWarning, n => Number(n))
    case DiskCritical => Lift(p.diskCritical, n => Number(n))
  }

  /** The partial config with field `f` set to `v`. */
  function Set(p: PartialServerConfig, f: FieldName, v: FieldValue): (q: PartialServerConfig)
    requires Fits(f, v)
    ensures GetPartial(q, f) == W.Some(v)
    ensures forall g :: g != f ==> GetPartial(q, g) == GetPartial(p, g)
  {
    match f
    case Address => p.(address := W.Some(v.s))
    case Enabled => p.(enabled := W.Some(v.b))
    case AutoPrune => p.(autoPrune := W.Some(v.b))
    case SendUnreachableAlerts => p.(sendUnreachableAlerts := W.Some(v.b))
    case SendCpuAlerts => p.(sendCpuAlerts := W.Some(v.b))
    case SendMemAlerts => p.(sendMemAlerts := W.Some(v.b))
    case SendDiskAlerts => p.(sendDiskAlerts := W.Some(v.b))
    case SendTempAlerts => p.(sendTempAlerts := W.Some(v.b))
    case Region => p.(region := W.Some(v.s))
    case CpuWarning => p.(cpuWarning := W.Some(v.n))
    case CpuCritical => p.(cpuCritical := W.Some(v.n))
    case MemWarning => p.(memWarning := W.Some(v.n))
    case MemCritical => p.(memCritical := W.Some(v.n))
    case DiskWarning => p.(diskWarning := W.Some(v.n))
    case DiskCritical => p.(diskCritical := W.Some(v.n))
  }

  /**
   * The default the deserialiser and the builder fill in for an absent
   * field: every field has one except `address`.
   */
  function Default(f: FieldName): (d: W.Option<FieldValue>)
    ensures d.Some? ==> Fits(f, d.value)
    ensures d.None? <==> f == Address
  {
    match f
    case Address => W.None
    case Enabled => W.Some(Flag(DEFAULT_ENABLED))
    case AutoPrune => W.Some(Flag(DEFAULT_AUTO_PRUNE))
    case Region => W.Some(Text(STRING_DEFAULT))
    case CpuWarning => W.Some(Number(DEFAULT_CPU_WARNING))
    case CpuCritical => W.Some(Number(DEFAULT_CPU_CRITICAL))
    case MemWarning => W.Some(Number(DEFAULT_MEM_WARNING))
    case MemCritical => W.Some(Number(DEFAULT_MEM_CRITICAL))
    case DiskWarning => W.Some(Number(DEFAULT_DISK_WARNING))
    case DiskCritical => W.Some(Number(DEFAULT_DISK_CRITICAL))
    case _ => W.Some(Flag(DEFAULT_SEND_ALERTS))
  }

  // ---- Path 1: deserialisation ----

  datatype SerdeError =
    | NotAStruct(found: Json)
    | MissingField(key: string)
    | InvalidType(key: string)
    | DuplicateField(key: string)
    | InvalidLength(len: nat)
    | TrailingElements

  /** Reads one present JSON value as a value of field `f`, or `None` when its type is wrong. */
  function FromJson(f: FieldName, j: Json): (r: W.Option<FieldValue>)
    ensures r.Some? ==> Fits(f, r.value)
  {
    match f
    case Address | Region => if j.JStr? then W.Some(Text(j.s)) else W.None
    case CpuWarning | CpuCritical | MemWarning | MemCritical | DiskWarning | DiskCritical =>
      if j.JNum? then W.Some(Number(j.n)) else W.None
    case _ => if j.JBool? then W.Some(Flag(j.b)) else W.None
  }

  /**
   * The value the deserialiser gives field `f` of object `j` when it
   * succeeds: what is present, else the default.
   */
  ghost function Expected(j: Json, f: FieldName): W.Option<FieldValue> {
    match Field(j, Key(f))
    case Some(x) => FromJson(f, x)
    case None => Default(f)
  }

  /** Field `f` of object `j`: the value present under its key, else its default. */
  function ReadField(j: Json, f: FieldName): (r: W.Result<FieldValue, SerdeError>)
    ensures r.Ok? <==> Expected(j, f).Some?
    ensures r.Ok? ==> W.Some(r.value) == Expected(j, f) && Fits(f, r.value)
    ensures r.Err? && Field(j, Key(f)).None? ==> r.error == MissingField(Key(f))
    ensures r.Err? && Field(j, Key(f)).Some? ==> r.error == InvalidType(Key(f))
  {
    match Field(j, Key(f))
    case Some(x) =>
      (match FromJson(f, x)
       case Some(v) => W.Ok(v)
       case None => W.Err(InvalidType(Key(f))))
    case None =>
      (match Default(f)
       case Some(d) => W.Ok(d)
       case None => W.Err(MissingField(Key(f))))
  }

  /** The fields in declaration order, the order the deserialiser reads them in. */
  const FIELDS: seq<FieldName> := [
    Address, Enabled, AutoPrune,
    SendUnreachableAlerts, SendCpuAlerts, SendMemAlerts, SendDiskAlerts, SendTempAlerts,
    Region,
    CpuWarning, CpuCritical, MemWarning, MemCritical, DiskWarning, DiskCritical]

  /** How many fields `FIELDS` lists. */
  const FIELD_COUNT: nat := 15

  /** The positions of `FIELDS` hold distinct fields. */
  lemma FieldsIndexed()
    ensures forall k :: 0 <= k < |FIELDS| ==> Index(FIELDS[k]) == k
  {
  }

  /** The position of a field in `FIELDS`. */
  function Index(f: FieldName): (i: nat)
    ensures i < |FIELDS| && FIELDS[i] == f
  {
    match f
    case Address => 0
    case Enabled => 1
    case AutoPrune => 2
    case SendUnreachableAlerts => 3
    case SendCpuAlerts => 4
    case SendMemAlerts => 5
    case SendDiskAlerts => 6
    case SendTempAlerts => 7
    case Region => 8
    case CpuWarning => 9
    case CpuCritical => 10
    case MemWarning => 11
    case MemCritical => 12
    case DiskWarning => 13
    case DiskCritical => 14
  }

  /** Reads the fields `fs` of `j` in order, stopping at the first that fails. */
  function ReadAll(j: Json, fs: seq<FieldName>): (r: W.Result<seq<FieldValue>, SerdeError>)
    ensures r.Ok? <==> forall i :: 0 <= i < |fs| ==> Expected(j, fs[i]).Some?
    ensures r.Ok? ==> |r.value| == |fs|
    ensures r.Ok? ==> forall i :: 0 <= i < |fs| ==>
      W.Some(r.value[i]) == Expected(j, fs[i]) && Fits(fs[i], r.value[i])
    decreases |fs|
  {
    if fs == [] then W.Ok([])
    else
      var v :- ReadField(j, fs[0]);
      var vs :- ReadAll(j, fs[1..]);
      W.Ok([v] + vs)
  }

  /** The config whose fields are `vs`, listed in the order of `FIELDS`. */
  function Assemble(vs: seq<FieldValue>): (c: ServerConfig)
    requires |vs| == |FIELDS|
    requires forall f :: Fits(f, vs[Index(f)])
    ensures forall f :: Get(c, f) == vs[Index(f)]
  {
    var c := ServerConfig(
      vs[0].AsText(), vs[1].AsFlag(), vs[2].AsFlag(),
      vs[3].AsFlag(), vs[4].AsFlag(), vs[5].AsFlag(), vs[6].AsFlag(), vs[7].AsFlag(),
      vs[8].AsText(),
      vs[9].AsNumber(), vs[10].AsNumber(), vs[11].AsNumber(),
      vs[12].AsNumber(), vs[13].AsNumber(), vs[14].AsNumber());
    assert forall f :: Get(c, f) == vs[Index(f)] by {
      forall f ensures Get(c, f) == vs[Index(f)] {
        assert Fits(f, vs[Index(f)]);
      }
    }
    c
  }


  /**
   * Field `f` of members `ms` is acceptable after the fields `seen`: named at
   * most once, and not at all if already seen, with a value of its type.
   */
  ghost predicate Acceptable(ms: seq<Member>, seen: set<FieldName>, f: FieldName) {
    && Occurrences(ms, Key(f)) <= (if f in seen then 0 else 1)
    && (Find(ms, Key(f)).Some? ==> FromJson(f, Find(ms, Key(f)).value).Some?)
  }

  /** Every field is named at most once, and with a value of its type when present. */
  ghost predicate WellKeyed(ms: seq<Member>) {
    forall f :: Acceptable(ms, {}, f)
  }

  /** A first member named by no key of `f` leaves its acceptability unchanged. */
  lemma SkipMember(ms: seq<Member>, seen: set<FieldName>, f: FieldName)
    requires |ms| > 0 && ms[0].key != Key(f)
    ensures Acceptable(ms, seen, f) == Acceptable(ms[1..], seen, f)
  {
  }

  /** A first member naming a new field `g` with a value of its type moves `g` to the seen fields. */
  lemma TakeMember(ms: seq<Member>, seen: set<FieldName>, g: FieldName, f: FieldName)
    requires |ms| > 0 && ms[0].key == Key(g) && g !in seen && FromJson(g, ms[0].value).Some?
    ensures Acceptable(ms, seen, f) == Acceptable(ms[1..], seen + {g}, f)
  {
    KeyInjective(f, g);
  }

  /**
   * The derived visitor's pass over an object's members, in order: a member
   * naming a field already `seen` is a duplicate, one whose value has the
   * wrong type is invalid, and a member naming no field is skipped. The
   * result is the first rejection met, if any.
   */
  function FirstRejection(ms: seq<Member>, seen: set<FieldName>): (r: W.Option<SerdeError>)
    ensures r.None? <==> forall f :: Acceptable(ms, seen, f)
    ensures r.Some? ==> r.value.DuplicateField? || r.value.InvalidType?
    decreases |ms|
  {
    if |ms| == 0 then W.None
    else
      match ParseKey(ms[0].key)
      case None =>
        assert forall f :: Acceptable(ms, seen, f) == Acceptable(ms[1..], seen, f) by {
          forall f ensures Acceptable(ms, seen, f) == Acceptable(ms[1..], seen, f) {
            SkipMember(ms, seen, f);
          }
        }
        FirstRejection(ms[1..], seen)
      case Some(g) =>
        if g in seen then
          assert !Acceptable(ms, seen, g);
          W.Some(DuplicateField(Key(g)))
        else if FromJson(g, ms[0].value).None? then
          assert !Acceptable(ms, seen, g);
          W.Some(InvalidType(Key(g)))
        else
          assert forall f :: Acceptable(ms, seen, f) == Acceptable(ms[1..], seen + {g}, f) by {
            forall f ensures Acceptable(ms, seen, f) == Acceptable(ms[1..], seen + {g}, f) {
              TakeMember(ms, seen, g, f);
            }
          }
          FirstRejection(ms[1..], seen + {g})
  }

  /** The value element `k` of an array gives field `FIELDS[k]`: the element, else the default. */
  ghost function ElementValue(items: seq<Json>, k: nat): W.Option<FieldValue>
    requires k < |FIELDS|
  {
    if k < |items| then FromJson(FIELDS[k], items[k]) else Default(FIELDS[k])
  }

  /** Element `k` of an array read as field `FIELDS[k]`; a missing element takes the default. */
  function ReadElement(items: seq<Json>, k: nat): (r: W.Result<FieldValue, SerdeError>)
    requires k < |FIELDS|
    ensures r.Ok? <==> ElementValue(items, k).Some?
    ensures r.Ok? ==> W.Some(r.value) == ElementValue(items, k) && Fits(FIELDS[k], r.value)
    ensures r.Err? && k < |items| ==> r.error == InvalidType(Key(FIELDS[k]))
    ensures r.Err? && |items| <= k ==> r.error == InvalidLength(k)
  {
    if k < |items| then
      match FromJson(FIELDS[k], items[k])
      case Some(v) => W.Ok(v)
      case None => W.Err(InvalidType(Key(FIELDS[k])))
    else
      match Default(FIELDS[k])
      case Some(d) => W.Ok(d)
      case None => W.Err(InvalidLength(k))
  }

  /**
   * The derived visitor's reading of an array: the fields from position `k`
   * on, one element each in declaration order, and then no element left over.
   */
  function ReadElements(items: seq<Json>, k: nat): (r: W.Result<seq<FieldValue>, SerdeError>)
    requires k <= FIELD_COUNT
    ensures r.Ok? <==> |items| <= FIELD_COUNT && forall i :: k <= i < FIELD_COUNT ==> ElementValue(items, i).Some?
    ensures r.Ok? ==> |r.value| == FIELD_COUNT - k
    ensures r.Ok? ==> forall i :: k <= i < FIELD_COUNT ==>
      W.Some(r.value[i - k]) == ElementValue(items, i) && Fits(FIELDS[i], r.value[i - k])
    decreases FIELD_COUNT - k
  {
    if k == FIELD_COUNT then (if |items| <= FIELD_COUNT then W.Ok([]) else W.Err(TrailingElements))
    else
      var v :- ReadElement(items, k);
      var vs :- ReadElements(items, k + 1);
      W.Ok([v] + vs)
  }

  /**
   * The derived visitor on an object: the pass over its members, then each
   * field from its one occurrence, else its default.
   */
  function DeserializeObject(j: Json): (r: W.Result<ServerConfig, SerdeError>)
    requires j.JObj?
    ensures r.Ok? <==> WellKeyed(j.members) && Field(j, Key(Address)).Some?
    ensures r.Ok? ==> forall f :: W.Some(Get(r.value, f)) == Expected(j, f)
    ensures !WellKeyed(j.members) ==> r.Err? && (r.error.DuplicateField? || r.error.InvalidType?)
    ensures WellKeyed(j.members) && Field(j, Key(Address)).None? ==> r == W.Err(MissingField(Key(Address)))
  {
    match FirstRejection(j.members, {})
    case Some(e) => W.Err(e)
    case None =>
      assert FIELDS[0] == Address;
      ObjectFieldsRead(j);
      var vs :- ReadAll(j, FIELDS);
      ByField(j, vs);
      W.Ok(Assemble(vs))
  }

  /** The derived visitor on an array: field `k` from element `k`, else its default. */
  function DeserializeArray(items: seq<Json>): (r: W.Result<ServerConfig, SerdeError>)
    ensures r.Ok? <==> 0 < |items| <= |FIELDS| && forall i :: 0 <= i < |items| ==> FromJson(FIELDS[i], items[i]).Some?
    ensures r.Ok? ==> forall f :: W.Some(Get(r.value, f)) == ElementValue(items, Index(f))
    ensures items == [] ==> r == W.Err(InvalidLength(0))
  {
    ArrayFieldsRead(items);
    assert FIELDS[0] == Address;
    var vs :- ReadElements(items, 0);
    assert forall f :: W.Some(vs[Index(f)]) == ElementValue(items, Index(f)) && Fits(f, vs[Index(f)]) by {
      forall f ensures W.Some(vs[Index(f)]) == ElementValue(items, Index(f)) && Fits(f, vs[Index(f)]) {
        assert FIELDS[Index(f)] == f;
      }
    }
    W.Ok(Assemble(vs))
  }

  /**
   * `ServerConfig`'s `Deserialize` through serde_json, which hands the
   * derived visitor either form of a struct. An object succeeds exactly when
   * no field is named twice, every field present has its type and `address`
   * is present; each field is then what was present, else its default. The
   * members are checked in the order they appear, and a missing `address`
   * is reported after that pass. An array succeeds exactly when it has one
   * to fifteen elements, each of the type of the field at its position;
   * the fields past its end take their defaults.
   */
  function Deserialize(j: Json): (r: W.Result<ServerConfig, SerdeError>)
    ensures j.JObj? ==> (r.Ok? <==> WellKeyed(j.members) && Field(j, Key(Address)).Some?)
    ensures j.JObj? && r.Ok? ==> forall f :: W.Some(Get(r.value, f)) == Expected(j, f)
    ensures j.JObj? && !WellKeyed(j.members) ==> r.Err? && (r.error.DuplicateField? || r.error.InvalidType?)
    ensures j.JObj? && WellKeyed(j.members) && Field(j, Key(Address)).None? ==> r == W.Err(MissingField(Key(Address)))
    ensures j.JArr? ==> (r.Ok? <==>
      0 < |j.items| <= |FIELDS| && forall i :: 0 <= i < |j.items| ==> FromJson(FIELDS[i], j.items[i]).Some?)
    ensures j.JArr? && r.Ok? ==> forall f ::
      W.Some(Get(r.value, f)) == (if Index(f) < |j.items| then FromJson(f, j.items[Index(f)]) else Default(f))
    ensures j.JArr? && j.items == [] ==> r == W.Err(InvalidLength(0))
    ensures !j.JObj? && !j.JArr? ==> r == W.Err(NotAStruct(j))
  {
    match j
    case JObj(_) => DeserializeObject(j)
    case JArr(items) =>
      var r := DeserializeArray(items);
      assert forall f :: FIELDS[Index(f)] == f;
      r
    case _ => W.Err(NotAStruct(j))
  }

  /** The values read for `FIELDS`, looked up by field. */
  lemma ByField(j: Json, vs: seq<FieldValue>)
    requires ReadAll(j, FIELDS) == W.Ok(vs)
    ensures |vs| == |FIELDS|
    ensures forall f :: W.Some(vs[Index(f)]) == Expected(j, f) && Fits(f, vs[Index(f)])
  {
    forall f ensures W.Some(vs[Index(f)]) == Expected(j, f) && Fits(f, vs[Index(f)]) {
      assert FIELDS[Index(f)] == f;
    }
  }

  /** In a well-keyed object every field reads, except a missing `address`. */
  lemma ObjectFieldsRead(j: Json)
    requires j.JObj? && WellKeyed(j.members)
    ensures (forall i :: 0 <= i < |FIELDS| ==> Expected(j, FIELDS[i]).Some?) <==> Field(j, Key(Address)).Some?
  {
    assert FIELDS[0] == Address;
    forall i | 0 <= i < |FIELDS| && Field(j, Key(Address)).Some? ensures Expected(j, FIELDS[i]).Some? {
      var f := FIELDS[i];
      assert Acceptable(j.members, {}, f);
    }
  }

  /** Every position of an array reads exactly when the array is not empty, not too long, and well typed. */
  lemma ArrayFieldsRead(items: seq<Json>)
    ensures (|items| <= |FIELDS| && forall i :: 0 <= i < |FIELDS| ==> ElementValue(items, i).Some?) <==>
      0 < |items| <= |FIELDS| && forall i :: 0 <= i < |items| ==> FromJson(FIELDS[i], items[i]).Some?
  {
    FieldsIndexed();
    assert FIELDS[0] == Address;
    if |items| == 0 {
      assert ElementValue(items, 0).None?;
    }
    forall i | 0 <= i < |items| && i < |FIELDS| ensures ElementValue(items, i) == FromJson(FIELDS[i], items[i]) {
    }
    if 0 < |items| <= |FIELDS| && forall i :: 0 <= i < |items| ==> FromJson(FIELDS[i], items[i]).Some? {
      forall i | 0 <= i < |FIELDS| ensures ElementValue(items, i).Some? {
        if |items| <= i {
          assert Index(FIELDS[i]) == i;
          assert FIELDS[i] != Address;
        }
      }
    }
  }

  // ---- Field names on the wire ----

  /** The field a JSON key names, as serde's field visitor resolves it; other keys are ignored. */
  function ParseKey(k: string): (f: W.Option<FieldName>)
    ensures f.Some? ==> Key(f.value) == k
    ensures f.None? ==> forall g :: Key(g) != k
  {
    if |k| == 7 && k == "address" then W.Some(Address)
    else if |k| == 7 && k == "enabled" then W.Some(Enabled)
    else if |k| == 10 && k == "auto_prune" then W.Some(AutoPrune)
    else if |k| == 23 && k == "send_unreachable_alerts" then W.Some(SendUnreachableAlerts)
    else if |k| == 15 && k == "send_cpu_alerts" then W.Some(SendCpuAlerts)
    else if |k| == 15 && k == "send_mem_alerts" then W.Some(SendMemAlerts)
    else if |k| == 16 && k == "send_disk_alerts" then W.Some(SendDiskAlerts)
    else if |k| == 16 && k == "send_temp_alerts" then W.Some(SendTempAlerts)
    else if |k| == 6 && k == "region" then W.Some(Region)
    else if |k| == 11 && k == "cpu_warning" then W.Some(CpuWarning)
    else if |k| == 12 && k == "cpu_critical" then W.Some(CpuCritical)
    else if |k| == 11 && k == "mem_warning" then W.Some(MemWarning)
    else if |k| == 12 && k == "mem_critical" then W.Some(MemCritical)
    else if |k| == 12 && k == "disk_warning" then W.Some(DiskWarning)
    else if |k| == 13 && k == "disk_critical" then W.Some(DiskCritical)
    else W.None
  }

  lemma KeyRoundTrip(f: FieldName)
    ensures ParseKey(Key(f)) == W.Some(f)
  {
    match f
    case Address => case Enabled => case AutoPrune =>
    case SendUnreachableAlerts => case SendCpuAlerts => case SendMemAlerts =>
    case SendDiskAlerts => case SendTempAlerts => case Region =>
    case CpuWarning => case CpuCritical => case MemWarning =>
    case MemCritical => case DiskWarning => case DiskCritical =>
  }

  /** No two fields share a JSON key. */
  lemma KeyInjective(f: FieldName, g: FieldName)
    ensures Key(f) == Key(g) <==> f == g
  {
    KeyRoundTrip(f);
    KeyRoundTrip(g);
  }

  lemma KeysDistinct()
    ensures forall f, g :: Key(f) == Key(g) ==> f == g
  {
    forall f, g | Key(f) == Key(g) ensures f == g {
      KeyInjective(f, g);
    }
  }

  /** A proposition holds of two configs' fields one by one exactly when they are the same config. */
  lemma GetExtensional(c: ServerConfig, d: ServerConfig)
    ensures (forall f :: Get(c, f) == Get(d, f)) <==> c == d
  {
    if forall f :: Get(c, f) == Get(d, f) {
      assert c.address == d.address by { assert Get(c, Address) == Get(d, Address); }
      assert c.enabled == d.enabled by { assert Get(c, Enabled) == Get(d, Enabled); }
      assert c.autoPrune == d.autoPrune by { assert Get(c, AutoPrune) == Get(d, AutoPrune); }
      assert c.sendUnreachableAlerts == d.sendUnreachableAlerts by {
        assert Get(c, SendUnreachableAlerts) == Get(d, SendUnreachableAlerts);
      }
      assert c.sendCpuAlerts == d.sendCpuAlerts by { assert Get(c, SendCpuAlerts) == Get(d, SendCpuAlerts); }
      assert c.sendMemAlerts == d.sendMemAlerts by { assert Get(c, SendMemAlerts) == Get(d, SendMemAlerts); }
      assert c.sendDiskAlerts == d.sendDiskAlerts by { assert Get(c, SendDiskAlerts) == Get(d, SendDiskAlerts); }
      assert c.sendTempAlerts == d.sendTempAlerts by { assert Get(c, SendTempAlerts) == Get(d, SendTempAlerts); }
      assert c.region == d.region by { assert Get(c, Region) == Get(d, Region); }
      assert c.cpuWarning == d.cpuWarning by { assert Get(c, CpuWarning) == Get(d, CpuWarning); }
      assert c.cpuCritical == d.cpuCritical by { assert Get(c, CpuCritical) == Get(d, CpuCritical); }
      assert c.memWarning == d.memWarning by { assert Get(c, MemWarning) == Get(d, MemWarning); }
      assert c.memCritical == d.memCritical by { assert Get(c, MemCritical) == Get(d, MemCritical); }
      assert c.diskWarning == d.diskWarning by { assert Get(c, DiskWarning) == Get(d, DiskWarning); }
      assert c.diskCritical == d.diskCritical by { assert Get(c, DiskCritical) == Get(d, DiskCritical); }
    }
  }

  // ---- Serialisation ----

  function ToJson(v: FieldValue): Json {
    match v
    case Text(s) => JStr(s)
    case Flag(b) => JBool(b)
    case Number(n) => JNum(n)
  }

  lemma ValueRoundTrip(f: FieldName, v: FieldValue)
    requires Fits(f, v)
    ensures FromJson(f, ToJson(v)) == W.Some(v)
  {
  }

  /** A field reads exactly the JSON encodings of the values of its type, each as itself. */
  lemma FieldReadIsEncoding(f: FieldName, j: Json, v: FieldValue)
    ensures FromJson(f, j) == W.Some(v) <==> Fits(f, v) && ToJson(v) == j
  {
  }

  /** `ServerConfig`'s `Serialize`: one member per field, in declaration order. */
  function Serialize(c: ServerConfig): (j: Json)
    ensures j.JObj? && |j.members| == |FIELDS|
  {
    JObj(seq(|FIELDS|, i requires 0 <= i < |FIELDS| => Member(Key(FIELDS[i]), ToJson(Get(c, FIELDS[i])))))
  }

  lemma SerializedField(c: ServerConfig, f: FieldName)
    ensures Field(Serialize(c), Key(f)) == W.Some(ToJson(Get(c, f)))
  {
    var ms := Serialize(c).members;
    assert ms[Index(f)].key == Key(f);
    var i :| 0 <= i < |ms| && ms[i] == Member(Key(f), Find(ms, Key(f)).value);
    KeyInjective(FIELDS[i], f);
  }

  /** `Serialize` names every field once. */
  lemma SerializedKeysDistinct(c: ServerConfig)
    ensures DistinctKeys(Serialize(c).members)
  {
    FieldsIndexed();
    KeysDistinct();
  }

  /** Deserialising what `Serialize` wrote gives back the same config. */
  lemma SerdeRoundTrip(c: ServerConfig)
    ensures Deserialize(Serialize(c)) == W.Ok(c)
  {
    var j := Serialize(c);
    SerializedKeysDistinct(c);
    forall f ensures Expected(j, f) == W.Some(Get(c, f)) && Acceptable(j.members, {}, f) {
      SerializedField(c, f);
      ValueRoundTrip(f, Get(c, f));
      DistinctKeysOccurOnce(j.members, Key(f));
    }
    assert WellKeyed(j.members);
    GetExtensional(Deserialize(j).value, c);
  }

  /** The object naming, by their keys, the fields an array gives by position. */
  function Named(items: seq<Json>): (j: Json)
    requires |items| <= |FIELDS|
    ensures j.JObj? && |j.members| == |items|
  {
    JObj(seq(|items|, i requires 0 <= i < |items| => Member(Key(FIELDS[i]), items[i])))
  }

  /** `Named(items)` names each field at most once. */
  lemma NamedKeysDistinct(items: seq<Json>)
    requires |items| <= |FIELDS|
    ensures DistinctKeys(Named(items).members)
  {
    FieldsIndexed();
    KeysDistinct();
  }

  /** In `Named(items)` field `f` is found exactly when the array reaches its position. */
  lemma NamedField(items: seq<Json>, f: FieldName)
    requires |items| <= |FIELDS|
    ensures DistinctKeys(Named(items).members)
    ensures Find(Named(items).members, Key(f)) ==
      (if Index(f) < |items| then W.Some(items[Index(f)]) else W.None)
  {
    var ms := Named(items).members;
    NamedKeysDistinct(items);
    if Index(f) < |items| {
      FindDistinct(ms, Index(f));
    } else if Find(ms, Key(f)).Some? {
      var i :| 0 <= i < |ms| && ms[i].key == Key(f);
      KeyInjective(FIELDS[i], f);
      FieldsIndexed();
      assert false;
    }
  }

  /** Field by field, the keyed object accepts and yields what the array form does. */
  lemma NamedAcceptance(items: seq<Json>)
    requires |items| <= |FIELDS|
    ensures forall f ::
      (Acceptable(Named(items).members, {}, f) <==> (Index(f) < |items| ==> FromJson(f, items[Index(f)]).Some?))
      && Expected(Named(items), f) == (if Index(f) < |items| then FromJson(f, items[Index(f)]) else Default(f))
  {
    var j := Named(items);
    forall f ensures Acceptable(j.members, {}, f) <==> (Index(f) < |items| ==> FromJson(f, items[Index(f)]).Some?)
    ensures Expected(j, f) == (if Index(f) < |items| then FromJson(f, items[Index(f)]) else Default(f))
    {
      NamedField(items, f);
      DistinctKeysOccurOnce(j.members, Key(f));
    }
  }

  /** When the array form is read, the keyed object is read to the same config. */
  lemma ArrayOkGivesObject(items: seq<Json>)
    requires |items| <= |FIELDS|
    requires Deserialize(JArr(items)).Ok?
    ensures Deserialize(JArr(items)) == Deserialize(Named(items))
  {
    var j := Named(items);
    NamedAcceptance(items);
    FieldsIndexed();
    assert FIELDS[0] == Address;
    var a := Deserialize(JArr(items));
    assert forall f :: Index(f) < |items| ==> FromJson(f, items[Index(f)]).Some?;
    assert WellKeyed(j.members);
    var o := Deserialize(j);
    assert o.Ok?;
    GetExtensional(a.value, o.value);
  }

  /** When the keyed object is read, so is the array form. */
  lemma ObjectOkGivesArray(items: seq<Json>)
    requires |items| <= |FIELDS|
    requires Deserialize(Named(items)).Ok?
    ensures Deserialize(JArr(items)).Ok?
  {
    var j := Named(items);
    NamedAcceptance(items);
    FieldsIndexed();
    assert FIELDS[0] == Address;
    forall i | 0 <= i < |items| ensures FromJson(FIELDS[i], items[i]).Some? {
      assert Acceptable(j.members, {}, FIELDS[i]);
    }
  }

  /**
   * An array of at most fifteen elements reads as the object that names
   * each element by the key of the field at its position: both succeed or
   * both fail, with the same config.
   */
  lemma ArrayAgreesWithObject(items: seq<Json>)
    requires |items| <= |FIELDS|
    ensures Deserialize(JArr(items)).Ok? <==> Deserialize(Named(items)).Ok?
    ensures Deserialize(JArr(items)).Ok? ==> Deserialize(JArr(items)) == Deserialize(Named(items))
  {
    if Deserialize(JArr(items)).Ok? {
      ArrayOkGivesObject(items);
    }
    if Deserialize(Named(items)).Ok? {
      ObjectOkGivesArray(items);
    }
  }


  /** A partial config as JSON: the present fields only (`skip_serializing_none`). */
  function SerializePartial(p: PartialServerConfig): Json {
    JObj(PresentMembers(p, FIELDS))
  }

  function PresentMembers(p: PartialServerConfig, fs: seq<FieldName>): seq<Member>
    decreases |fs|
  {
    if fs == [] then []
    else
      match GetPartial(p, fs[0])
      case Some(v) => [Member(Key(fs[0]), ToJson(v))] + PresentMembers(p, fs[1..])
      case None => PresentMembers(p, fs[1..])
  }

  function JsonOf(o: W.Option<FieldValue>): W.Option<Json> {
    match o
    case Some(v) => W.Some(ToJson(v))
    case None => W.None
  }

  lemma {:induction false} FindPresent(p: PartialServerConfig, fs: seq<FieldName>, f: FieldName)
    ensures Find(PresentMembers(p, fs), Key(f)) == (if f in fs then JsonOf(GetPartial(p, f)) else W.None)
    decreases |fs|
  {
    if fs != [] {
      FindPresent(p, fs[1..], f);
      KeyInjective(fs[0], f);
      assert f in fs <==> f == fs[0] || f in fs[1..];
      match GetPartial(p, fs[0])
      case Some(v) =>
        var ms := [Member(Key(fs[0]), ToJson(v))] + PresentMembers(p, fs[1..]);
        assert ms[1..] == PresentMembers(p, fs[1..]);
      case None =>
    }
  }

  /** What the builder and the deserialiser take for field `f` of `p`: the value set, else the default. */
  function Filled(p: PartialServerConfig, f: FieldName): (v: W.Option<FieldValue>)
    ensures v.Some? ==> Fits(f, v.value)
    ensures v.None? <==> f == Address && p.address.None?
  {
    match GetPartial(p, f)
    case Some(v) => W.Some(v)
    case None => Default(f)
  }

  /**
   * A config that takes each field but `address` and `region` from `p`,
   * else from its default, agrees with `Filled` on those fields.
   */
  lemma DefaultedFields(p: PartialServerConfig, c: ServerConfig)
    requires c.enabled == p.enabled.GetOr(DEFAULT_ENABLED)
    requires c.autoPrune == p.autoPrune.GetOr(DEFAULT_AUTO_PRUNE)
    requires c.sendUnreachableAlerts == p.sendUnreachableAlerts.GetOr(DEFAULT_SEND_ALERTS)
    requires c.sendCpuAlerts == p.sendCpuAlerts.GetOr(DEFAULT_SEND_ALERTS)
    requires c.sendMemAlerts == p.sendMemAlerts.GetOr(DEFAULT_SEND_ALERTS)
    requires c.sendDiskAlerts == p.sendDiskAlerts.GetOr(DEFAULT_SEND_ALERTS)
    requires c.sendTempAlerts == p.sendTempAlerts.GetOr(DEFAULT_SEND_ALERTS)
    requires c.cpuWarning == p.cpuWarning.GetOr(DEFAULT_CPU_WARNING)
    requires c.cpuCritical == p.cpuCritical.GetOr(DEFAULT_CPU_CRITICAL)
    requires c.memWarning == p.memWarning.GetOr(DEFAULT_MEM_WARNING)
    requires c.memCritical == p.memCritical.GetOr(DEFAULT_MEM_CRITICAL)
    requires c.diskWarning == p.diskWarning.GetOr(DEFAULT_DISK_WARNING)
    requires c.diskCritical == p.diskCritical.GetOr(DEFAULT_DISK_CRITICAL)
    ensures forall f :: f != Address && f != Region ==> W.Some(Get(c, f)) == Filled(p, f)
  {
    forall f | f != Address && f != Region ensures W.Some(Get(c, f)) == Filled(p, f) {
      match f
      case Enabled => case AutoPrune =>
      case SendUnreachableAlerts => case SendCpuAlerts => case SendMemAlerts =>
      case SendDiskAlerts => case SendTempAlerts =>
      case CpuWarning => case CpuCritical => case MemWarning =>
      case MemCritical => case DiskWarning => case DiskCritical =>
    }
  }

  // ---- Path 2: the builder ----

  datatype BuildError = UninitializedField(name: string)

  /**
   * `ServerConfigBuilder::build` on the builder state `p`: fails only when
   * `address`, the one field without a default, was never set.
   */
  function Build(p: PartialServerConfig): (r: W.Result<ServerConfig, BuildError>)
    ensures r.Ok? <==> p.address.Some?
    ensures r.Err? ==> r.error == UninitializedField(Key(Address))
    ensures r.Ok? ==> forall f :: W.Some(Get(r.value, f)) == Filled(p, f)
  {
    match p.address
    case None => W.Err(UninitializedField("address"))
    case Some(a) =>
      var c := ServerConfig(
        a,
        p.enabled.GetOr(DEFAULT_ENABLED),
        p.autoPrune.GetOr(DEFAULT_AUTO_PRUNE),
        p.sendUnreachableAlerts.GetOr(DEFAULT_SEND_ALERTS),
        p.sendCpuAlerts.GetOr(DEFAULT_SEND_ALERTS),
        p.sendMemAlerts.GetOr(DEFAULT_SEND_ALERTS),
        p.sendDiskAlerts.GetOr(DEFAULT_SEND_ALERTS),
        p.sendTempAlerts.GetOr(DEFAULT_SEND_ALERTS),
        p.region.GetOr(STRING_DEFAULT),
        p.cpuWarning.GetOr(DEFAULT_CPU_WARNING),
        p.cpuCritical.GetOr(DEFAULT_CPU_CRITICAL),
        p.memWarning.GetOr(DEFAULT_MEM_WARNING),
        p.memCritical.GetOr(DEFAULT_MEM_CRITICAL),
        p.diskWarning.GetOr(DEFAULT_DISK_WARNING),
        p.diskCritical.GetOr(DEFAULT_DISK_CRITICAL));
      DefaultedFields(p, c);
      W.Ok(c)
  }

  // ---- Path 3: from a partial config ----

  /**
   * `From<PartialServerConfig> for ServerConfig`: present fields are kept
   * and absent fields with a partial default take it. `address` and
   * `region` have none; what the derive puts there when they are absent is
   * not shown, so it is the parameters `absentAddress` and `absentRegion`.
   */
  function FromPartial(p: PartialServerConfig, absentAddress: string, absentRegion: string): (c: ServerConfig)
    ensures Get(c, Address) == Text(p.address.GetOr(absentAddress))
    ensures Get(c, Region) == Text(p.region.GetOr(absentRegion))
    ensures forall f :: f != Address && f != Region ==> W.Some(Get(c, f)) == Filled(p, f)
  {
    var c := ServerConfig(
      p.address.GetOr(absentAddress),
      p.enabled.GetOr(DEFAULT_ENABLED),
      p.autoPrune.GetOr(DEFAULT_AUTO_PRUNE),
      p.sendUnreachableAlerts.GetOr(DEFAULT_SEND_ALERTS),
      p.sendCpuAlerts.GetOr(DEFAULT_SEND_ALERTS),
      p.sendMemAlerts.GetOr(DEFAULT_SEND_ALERTS),
      p.sendDiskAlerts.GetOr(DEFAULT_SEND_ALERTS),
      p.sendTempAlerts.GetOr(DEFAULT_SEND_ALERTS),
      p.region.GetOr(absentRegion),
      p.cpuWarning.GetOr(DEFAULT_CPU_WARNING),
      p.cpuCritical.GetOr(DEFAULT_CPU_CRITICAL),
      p.memWarning.GetOr(DEFAULT_MEM_WARNING),
      p.memCritical.GetOr(DEFAULT_MEM_CRITICAL),
      p.diskWarning.GetOr(DEFAULT_DISK_WARNING),
      p.diskCritical.GetOr(DEFAULT_DISK_CRITICAL));
    DefaultedFields(p, c);
    c
  }

  // ---- The three paths agree ----

  /**
   * Deserialising the JSON of the fields set in `p` succeeds exactly when
   * the builder does, with the same config; both fail only for a missing
   * `address`.
   */
  lemma {:induction false} PresentKeysOnce(p: PartialServerConfig, fs: seq<FieldName>, f: FieldName)
    requires forall i, k :: 0 <= i < k < |fs| ==> fs[i] != fs[k]
    ensures Occurrences(PresentMembers(p, fs), Key(f)) <= 1
    decreases |fs|
  {
    if fs != [] {
      var tail := fs[1..];
      assert forall i :: 0 <= i < |tail| ==> tail[i] == fs[i + 1];
      PresentKeysOnce(p, tail, f);
      FindPresent(p, tail, f);
      KeyInjective(fs[0], f);
      match GetPartial(p, fs[0])
      case Some(v) =>
        var ms := [Member(Key(fs[0]), ToJson(v))] + PresentMembers(p, tail);
        assert ms[1..] == PresentMembers(p, tail);
      case None =>
    }
  }

  /** The JSON of a partial config names each field at most once, with a value of its type. */
  lemma PartialWellKeyed(p: PartialServerConfig)
    ensures WellKeyed(SerializePartial(p).members)
  {
    var j := SerializePartial(p);
    FieldsIndexed();
    forall f ensures Acceptable(j.members, {}, f) {
      PresentKeysOnce(p, FIELDS, f);
      PartialField(p, f);
      FindPresent(p, FIELDS, f);
    }
  }

  lemma SerdeAgreesWithBuilder(p: PartialServerConfig)
    ensures Deserialize(SerializePartial(p)).Ok? <==> Build(p).Ok?
    ensures Build(p).Ok? ==> Deserialize(SerializePartial(p)).value == Build(p).value
    ensures Build(p).Err? ==> Deserialize(SerializePartial(p)) == W.Err(MissingField(Key(Address)))
  {
    var j := SerializePartial(p);
    PartialWellKeyed(p);
    var d := Deserialize(j);
    var b := Build(p);
    assert forall f :: Expected(j, f) == Filled(p, f) by {
      forall f ensures Expected(j, f) == Filled(p, f) {
        PartialField(p, f);
      }
    }
    if b.Ok? {
      assert d.Ok?;
      assert forall f :: Get(d.value, f) == Get(b.value, f) by {
        forall f ensures Get(d.value, f) == Get(b.value, f) {
          assert W.Some(Get(d.value, f)) == Expected(j, f);
          assert W.Some(Get(b.value, f)) == Filled(p, f);
        }
      }
      GetExtensional(d.value, b.value);
    } else {
      assert Field(j, Key(Address)).None? by {
        FindPresent(p, FIELDS, Address);
        assert FIELDS[0] == Address;
      }
    }
  }

  /** Each field of a partial config's JSON reads back as the value set, else the default. */
  lemma PartialField(p: PartialServerConfig, f: FieldName)
    ensures Expected(SerializePartial(p), f) == Filled(p, f)
  {
    FindPresent(p, FIELDS, f);
    assert FIELDS[Index(f)] == f;
    if GetPartial(p, f).Some? {
      ValueRoundTrip(f, GetPartial(p, f).value);
    }
  }

  /**
   * With `address` set, the builder and the partial conversion agree on
   * every field, except `region` when it is absent.
   */
  lemma BuilderAgreesWithPartial(p: PartialServerConfig, absentAddress: string, absentRegion: string)
    requires p.address.Some?
    ensures forall f :: f != Region || p.region.Some? ==>
      Get(Build(p).value, f) == Get(FromPartial(p, absentAddress, absentRegion), f)
    ensures p.region.Some? ==> Build(p) == W.Ok(FromPartial(p, absentAddress, absentRegion))
  {
    var b := Build(p).value;
    var c := FromPartial(p, absentAddress, absentRegion);
    assert forall f :: f != Region || p.region.Some? ==> Get(b, f) == Get(c, f) by {
      forall f | f != Region || p.region.Some? ensures Get(b, f) == Get(c, f) {
        assert W.Some(Get(b, f)) == Filled(p, f);
      }
    }
    if p.region.Some? {
      GetExtensional(b, c);
    }
  }

  /** A server given only its address gets every documented default. */
  lemma OnlyAddress(a: string)
    ensures Build(NoFields.(address := W.Some(a))) == W.Ok(ServerConfig(
      a, true, true,
      true, true, true, true, true,
      "",
      90.0, 99.0, 75.0, 95.0, 75.0, 95.0))
    ensures Deserialize(JObj([Member("address", JStr(a))])) == W.Ok(Build(NoFields.(address := W.Some(a))).value)
  {
    var p := NoFields.(address := W.Some(a));
    var j := JObj([Member("address", JStr(a))]);
    forall f ensures Expected(j, f) == Filled(p, f) && Acceptable(j.members, {}, f) {
      KeyInjective(Address, f);
    }
    GetExtensional(Deserialize(j).value, Build(p).value);
  }

  /** The one-element array `[address]` reads as the config with only that address. */
  lemma OnlyAddressArray(a: string)
    ensures Deserialize(JArr([JStr(a)])) == W.Ok(Build(NoFields.(address := W.Some(a))).value)
  {
    OnlyAddress(a);
    NamedAddress(a);
    ArrayAgreesWithObject([JStr(a)]);
  }

  /** The object naming the element of `[address]` is `{"address": address}`. */
  lemma NamedAddress(a: string)
    ensures Named([JStr(a)]) == JObj([Member("address", JStr(a))])
  {
    assert FIELDS[0] == Address;
  }

  /** In every default config each warning threshold lies below its critical one. */
  lemma DefaultWarningsBelowCritical(a: string)
    ensures var c := Build(NoFields.(address := W.Some(a))).value;
      c.cpuWarning < c.cpuCritical && c.memWarning < c.memCritical && c.diskWarning < c.diskCritical
  {
  }

  /** Setting one field on the builder changes that field of the built config and no other. */
  lemma OverrideOneField(p: PartialServerConfig, f: FieldName, v: FieldValue)
    requires Fits(f, v)
    requires p.address.Some?
    ensures Build(Set(p, f, v)).Ok?
    ensures Get(Build(Set(p, f, v)).value, f) == v
    ensures forall g :: g != f ==> Get(Build(Set(p, f, v)).value, g) == Get(Build(p).value, g)
  {
    var q := Set(p, f, v);
    assert GetPartial(q, Address).Some?;
    assert q.address.Some?;
    var c, d := Build(q).value, Build(p).value;
    assert W.Some(Get(c, f)) == Filled(q, f);
    forall g | g != f ensures Get(c, g) == Get(d, g) {
      assert W.Some(Get(c, g)) == Filled(q, g);
      assert W.Some(Get(d, g)) == Filled(p, g);
    }
  }

  // ---- Status and action state ----

  /** The reachability status of a server; `NotOk` is the default. */
  datatype ServerStatus = NotOk | Ok | Disabled

  const DEFAULT_STATUS: ServerStatus := NotOk

  /** serde's externally tagged encoding of a unit variant: its name as a JSON string. */
  function StatusToJson(s: ServerStatus): (j: Json)
    ensures j.JStr?
    ensures StatusFromJson(j) == W.Some(s)
  {
    match s
    case NotOk => JStr("NotOk")
    case Ok => JStr("Ok")
    case Disabled => JStr("Disabled")
  }

  /**
   * Reads a status back as serde_json's enum reader does: the variant's
   * name as a string, or the one-member object `{"<name>": null}` that it
   * also takes for a unit variant; any other JSON value is refused.
   */
  function StatusFromJson(j: Json): (r: W.Option<ServerStatus>)
    ensures r.Some? <==> j in {
      JStr("NotOk"), JStr("Ok"), JStr("Disabled"),
      JObj([Member("NotOk", JNull)]), JObj([Member("Ok", JNull)]), JObj([Member("Disabled", JNull)])}
  {
    match j
    case JStr(name) => StatusNamed(name)
    case JObj(ms) =>
      if |ms| == 1 && ms[0].value == JNull then
        assert ms == [Member(ms[0].key, JNull)];
        StatusNamed(ms[0].key)
      else W.None
    case _ => W.None
  }

  /** The status whose variant is called `name`. */
  function StatusNamed(name: string): (r: W.Option<ServerStatus>)
    ensures r.Some? <==> name in {"NotOk", "Ok", "Disabled"}
  {
    if name == "NotOk" then W.Some(NotOk)
    else if name == "Ok" then W.Some(Ok)
    else if name == "Disabled" then W.Some(Disabled)
    else W.None
  }

  /** The `#[default]` status is the one written, and read back, as `"NotOk"`. */
  lemma DefaultStatusIsNotOk(s: ServerStatus)
    ensures StatusToJson(DEFAULT_STATUS) == JStr("NotOk")
    ensures StatusFromJson(JStr("NotOk")) == W.Some(DEFAULT_STATUS)
    ensures s != DEFAULT_STATUS ==> StatusToJson(s) != JStr("NotOk")
  {
  }

  lemma StatusRoundTrip(s: ServerStatus)
    ensures StatusFromJson(StatusToJson(s)) == W.Some(s)
  {
  }

  /** The map form `{"<name>": null}` of a status reads as the same status as its name. */
  lemma StatusMapForm(s: ServerStatus)
    ensures StatusFromJson(JObj([Member(StatusToJson(s).s, JNull)])) == W.Some(s)
  {
  }

  /**
   * A status is read only from its own encoding or from the map form of
   * that encoding's name.
   */
  lemma StatusReadIsEncoding(j: Json)
    ensures StatusFromJson(j).Some? ==>
      j == StatusToJson(StatusFromJson(j).value)
      || j == JObj([Member(StatusToJson(StatusFromJson(j).value).s, JNull)])
  {
  }

  /** Which long-running actions are in progress on a server; by default none. */
  datatype ServerActionState = ServerActionState(
    pruningNetworks: bool,
    pruningContainers: bool,
    pruningImages: bool,
    stoppingContainers: bool)

  const IDLE: ServerActionState := ServerActionState(false, false, false, false)

  /** Whether any of the four actions is running. */
  predicate Busy(a: ServerActionState) {
    a.pruningNetworks || a.pruningContainers || a.pruningImages || a.stoppingContainers
  }

  /** The derived default is the one action state in which nothing is running. */
  lemma IdleIsTheOnlyRestingState(a: ServerActionState)
    ensures !Busy(IDLE)
    ensures !Busy(a) <==> a == IDLE
  {
  }
}
