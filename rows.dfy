/**
 * Row images (ObjectMap) and change events (DbEvent).
 * A row image maps column names to the values Debezium delivers; the getters coerce those values.
 */
module Rows {
  import opened Wrappers
  import opened Text

  const TWO_TO_31: int := 0x8000_0000
  const TWO_TO_32: int := 0x1_0000_0000
  const TWO_TO_63: int := 0x8000_0000_0000_0000

  /** A value of a row image: null, a Java Integer, a Java Long, a Boolean or a String. */
  datatype Value =
    | Null
    | Int(i: int)
    | Long(l: int)
    | Bool(b: bool)
    | Str(s: string)
  {
    ghost predicate Valid() {
      (Int? ==> -TWO_TO_31 <= i < TWO_TO_31) && (Long? ==> -TWO_TO_63 <= l < TWO_TO_63)
    }

    /** Java's toString of the boxed value. */
    function ToString(): string {
      match this
      case Null => "null"
      case Int(i) => DecimalString(i)
      case Long(l) => DecimalString(l)
      case Bool(b) => BoolString(b)
      case Str(s) => s
    }
  }

  function BoolString(b: bool): string {
    if b then "true" else "false"
  }

  /** Number.intValue on a long: the low 32 bits read as a signed int. */
  function IntValue(l: int): (v: int)
    ensures -TWO_TO_31 <= v < TWO_TO_31
    ensures (v - l) % TWO_TO_32 == 0
  {
    var m := l % TWO_TO_32;
    if m >= TWO_TO_31 then m - TWO_TO_32 else m
  }

  /** Boolean.parseBoolean: true exactly for "true" in any letter case. */
  predicate ParseBoolean(s: string) {
    EqualsIgnoreCase(s, "true")
  }

  /**
   * An ObjectMap: the values of a row image and the order in which the underlying HashMap
   * iterates its keys (used only by toString, and taken as given).
   */
  datatype ObjectMap = ObjectMap(values: map<string, Value>, order: seq<string>) {

    ghost predicate Valid() {
      (forall i, j :: 0 <= i < j < |order| ==> order[i] != order[j]) &&
      (forall k :: k in values <==> k in order) &&
      (forall k :: k in values ==> values[k].Valid())
    }

    /** get(key) answers null for an absent key and for a key whose value is null. */
    predicate IsNull(key: string) {
      key !in values || values[key] == Null
    }

    /** getInteger: null for null, the Integer itself, and a ClassCastException for anything else. */
    function GetInteger(key: string): (r: Result<Option<int>>)
      ensures r == Ok(None) <==> IsNull(key)
      ensures forall i :: r == Ok(Some(i)) <==> key in values && values[key] == Int(i)
      ensures r.Err? <==> !IsNull(key) && !values[key].Int?
      ensures r.Err? ==> r.error == ClassCastException
    {
      if IsNull(key) then Ok(None)
      else match values[key]
        case Int(i) => Ok(Some(i))
        case _ => Err(ClassCastException)
    }

    /** getString: null for null, otherwise the value's toString. */
    function GetString(key: string): (r: Option<string>)
      ensures r.None? <==> IsNull(key)
      ensures r.Some? ==> r.value == values[key].ToString()
    {
      if IsNull(key) then None else Some(values[key].ToString())
    }

    /**
     * getBoolean: null for null; a Boolean as is; a Number is true exactly when its intValue is 1;
     * anything else is parsed from its string form.
     */
    function GetBoolean(key: string): (r: Option<bool>)
      ensures r.None? <==> IsNull(key)
      ensures key in values && values[key].Bool? ==> r == Some(values[key].b)
      ensures key in values && values[key].Int? ==> r == Some(values[key].i == 1)
      ensures key in values && values[key].Long? ==> r == Some(values[key].l % TWO_TO_32 == 1)
      ensures key in values && values[key].Str? ==> r == Some(ParseBoolean(values[key].s))
    {
      if IsNull(key) then None
      else match values[key]
        case Bool(b) => Some(b)
        case Int(i) => Some(i == 1)
        case Long(l) => Some(IntValue(l) == 1)
        case Str(s) => Some(ParseBoolean(s))
        case Null => None
    }

    /** getBoolean(key, default): the default replaces a null answer. */
    function GetBooleanOr(key: string, defaultValue: bool): (r: bool)
      ensures IsNull(key) ==> r == defaultValue
      ensures !IsNull(key) ==> Some(r) == GetBoolean(key)
    {
      var b := GetBoolean(key);
      if b.None? then defaultValue else b.value
    }

    /** HashMap's toString over the iteration order: "{k1=v1, k2=v2}". */
    function ToString(): string {
      "{" + JoinWith(", ", seq(|order|, i requires 0 <= i < |order| =>
        order[i] + "=" + (if order[i] in values then values[order[i]].ToString() else "null"))) + "}"
    }
  }

  /** The default of getBoolean(key, default) matters exactly when the value is null. */
  lemma DefaultMattersOnlyForNull(m: ObjectMap, key: string)
    ensures m.GetBooleanOr(key, true) != m.GetBooleanOr(key, false) <==> m.IsNull(key)
  {
  }

  /** An Integer read through getString parses back to the same number. */
  lemma {:induction false} IntegerStringRoundTrip(m: ObjectMap, key: string, i: int)
    requires m.GetInteger(key) == Ok(Some(i))
    ensures m.GetString(key).Some? && ParseDecimal(m.GetString(key).value) == Some(i)
  {
    DecimalRoundTrip(i);
  }

  /** Storing a Boolean's string form in place of the Boolean leaves getBoolean's answer unchanged. */
  lemma BooleanStringRoundTrip(m: ObjectMap, key: string)
    requires key in m.values && m.values[key].Bool?
    ensures var m' := m.(values := m.values[key := Str(m.GetString(key).value)]);
      m'.GetBoolean(key) == m.GetBoolean(key)
  {
    var b := m.values[key].b;
    assert LowerCase("true") == "true";
    if !b {
      assert LowerCase("false") == "false";
      assert "false"[0] != "true"[0];
    }
  }

  /**
   * A Long reads as the Integer its low 32 bits make (intValue truncates), so it reads true exactly
   * when it is 1 modulo 2^32; so 2^32 + 1 reads true although it is not 1.
   */
  lemma LongTruncatedToInt(m: ObjectMap, key: string, l: int)
    requires key in m.values && m.values[key] == Long(l)
    ensures m.GetBoolean(key) == m.(values := m.values[key := Int(IntValue(l))]).GetBoolean(key)
    ensures m.GetBoolean(key) == Some(true) <==> l % TWO_TO_32 == 1
  {
    var v := IntValue(l);
    assert (v - l) % TWO_TO_32 == 0;
    if v == 1 {
      assert (l - 1) % TWO_TO_32 == 0;
    }
  }

  /**
   * The operations of a change event. `DELETE` is the name `DbEvent` compares against; the other
   * three names are assumed, since `Operation.java` is not part of this model. The parser from
   * Debezium's "op" code is passed in where needed.
   */
  datatype Operation = READ | CREATE | UPDATE | DELETE {
    function Name(): string {
      match this
      case READ => "READ"
      case CREATE => "CREATE"
      case UPDATE => "UPDATE"
      case DELETE => "DELETE"
    }
  }

  /** The parts of a Debezium change record that DbEvent's constructor reads. */
  datatype Envelope = Envelope(tsMs: int, op: string, before: ObjectMap, after: ObjectMap, source: ObjectMap)

  /** A change record: its key image and its value, None when the value is not a Struct. */
  datatype ChangeRecord = ChangeRecord(key: ObjectMap, value: Option<Envelope>)

  /** A change event: the fields DbEvent's constructor fills. */
  datatype DbEvent = DbEvent(
    timestamp: int,
    serverName: Option<string>,
    table: Option<string>,
    operation: Operation,
    key: ObjectMap,
    before: ObjectMap,
    after: ObjectMap,
    source: ObjectMap)
  {
    /** getValues: the image before the change for a delete, after it otherwise. */
    function Values(): (m: ObjectMap)
      ensures operation == DELETE ==> m == before
      ensures operation != DELETE ==> m == after
    {
      if operation == DELETE then before else after
    }

    /** getUuid: the "uuid" of the effective image, null when it has none. */
    function Uuid(): (r: Option<string>)
      ensures r.None? <==> Values().IsNull("uuid")
      ensures r.Some? ==> r.value == Values().values["uuid"].ToString()
    {
      Values().GetString("uuid")
    }

    /** "<operation> <table> <key>", with a missing table shown as null. */
    function ToString(): string {
      operation.Name() + " " + Render(table) + " " + key.ToString()
    }
  }

  /**
   * DbEvent's constructor. Every failure while reading the record surfaces as a RuntimeException;
   * the table and server name come from the source image.
   */
  function NewEvent(record: ChangeRecord, parse: string -> Option<Operation>): (r: Result<DbEvent>)
    ensures r.Err? ==> r.error == RuntimeException
    ensures r.Ok? <==> record.value.Some? && parse(record.value.value.op).Some?
    ensures r.Ok? ==> var e, v := r.value, record.value.value;
      e.timestamp == v.tsMs && e.operation == parse(v.op).value && e.key == record.key &&
      e.before == v.before && e.after == v.after && e.source == v.source &&
      e.table == v.source.GetString("table") && e.serverName == v.source.GetString("name")
  {
    match record.value
    case None => Err(RuntimeException)
    case Some(v) =>
      match parse(v.op)
      case None => Err(RuntimeException)
      case Some(op) =>
        Ok(DbEvent(v.tsMs, v.source.GetString("name"), v.source.GetString("table"), op,
                   record.key, v.before, v.after, v.source))
  }

  /** The uuid of an event comes from the image getValues selects, so a delete reports the old row's uuid. */
  lemma UuidOfDelete(e: DbEvent)
    requires e.operation == DELETE
    ensures e.Uuid() == e.before.GetString("uuid")
  {
  }

  /** The rendering of an event starts with its operation's name and a space. */
  lemma EventStringStartsWithOperation(e: DbEvent)
    ensures var s, n := e.ToString(), e.operation.Name(); |s| > |n| && s[..|n|] == n && s[|n|] == ' '
  {
    var n := e.operation.Name();
    var s := e.ToString();
    assert s == n + (" " + Render(e.table) + " " + e.key.ToString());
  }
}
