/**
 * The Python values that flow through the pipeline's dictionaries: JSON values
 * from the news search API, and the documents kept in the news collection
 * (which also hold datetimes and ObjectIds).
 */
module PyValue {
  import opened Results
  import opened PyText

  /** A `datetime`: its date part "YYYY-MM-DD" and its time part "HH:MM:SS[.ffffff]". */
  datatype Timestamp = Timestamp(date: string, time: string)

  /** `dt.isoformat()`. */
  function IsoFormat(t: Timestamp): string
  {
    t.date + "T" + t.time
  }

  datatype Value =
    | Null
    | Bool(b: bool)
    | Int(i: int)
    | Str(s: string)
    | Time(t: Timestamp)
    | Oid(n: nat)
    | List(items: seq<Value>)
    | Obj(fields: map<string, Value>)

  /** Python truthiness. A datetime and an ObjectId are always true. */
  predicate Truthy(v: Value)
  {
    match v
    case Null => false
    case Bool(b) => b
    case Int(i) => i != 0
    case Str(s) => s != ""
    case Time(_) => true
    case Oid(_) => true
    case List(xs) => xs != []
    case Obj(m) => m != map[]
  }

  /** `type(v).__name__` as Python's error messages print it. */
  function TypeName(v: Value): string
  {
    match v
    case Null => "NoneType"
    case Bool(_) => "bool"
    case Int(_) => "int"
    case Str(_) => "str"
    case Time(_) => "datetime.datetime"
    case Oid(_) => "ObjectId"
    case List(_) => "list"
    case Obj(_) => "dict"
  }

  /** `d.get(k, default)`. */
  function Get(d: map<string, Value>, k: string, default: Value): (r: Value)
    ensures k in d ==> r == d[k]
    ensures k !in d ==> r == default
  {
    if k in d then d[k] else default
  }

  /** Python's `a or b`. */
  function Or(a: Value, b: Value): (r: Value)
    ensures Truthy(r) <==> Truthy(a) || Truthy(b)
  {
    if Truthy(a) then a else b
  }

  /** `None` for an absent optional string. */
  function FromOption(o: Option<string>): (v: Value)
    ensures o == None <==> v == Null
  {
    match o
    case None => Null
    case Some(s) => Str(s)
  }

  /** Reads a JSON field that the API documents as string-or-null. */
  function AsOption(v: Value): (o: Option<string>)
    ensures v.Str? ==> o == Some(v.s)
    ensures !v.Str? ==> o == None
  {
    if v.Str? then Some(v.s) else None
  }

  const HexDigits: string := "0123456789abcdef"

  function Hex(n: nat): (r: string)
    ensures |r| >= 1
    decreases n
  {
    if n < 16 then [HexDigits[n]] else Hex(n / 16) + [HexDigits[n % 16]]
  }

  /** The 24-digit lower-case hexadecimal text of an ObjectId. */
  function ObjectIdText(n: nat): (r: string)
    ensures |Hex(n)| <= 24 ==> |r| == 24
  {
    var h := Hex(n);
    if |h| < 24 then seq(24 - |h|, _ => '0') + h else h
  }

  /** `str(v)` for the scalar values; containers are outside the model and give "". */
  function Text(v: Value): string
  {
    match v
    case Null => "None"
    case Bool(b) => if b then "True" else "False"
    case Int(i) => IntToString(i)
    case Str(s) => s
    case Time(t) => t.date + " " + t.time
    case Oid(n) => ObjectIdText(n)
    case List(_) => ""
    case Obj(_) => ""
  }
}
