/**
 * The flat JSON objects the bridges exchange, after decoding: every value the
 * model needs is a scalar.
 */
module Json {
  import opened Wrappers
  import Text

  datatype Value = Null | Bool(b: bool) | Int(i: int) | Str(s: string)

  type Object = map<string, Value>

  /** `None` becomes JSON `null`. */
  function OfOptString(o: Option<string>): (v: Value)
    ensures o.None? <==> v.Null?
  {
    match o
    case None => Null
    case Some(s) => Str(s)
  }

  function OfOptInt(o: Option<int>): (v: Value)
    ensures o.None? <==> v.Null?
  {
    match o
    case None => Null
    case Some(i) => Int(i)
  }

  /** Reads back what `OfOptString` wrote. */
  function ToOptString(v: Value): Option<Option<string>> {
    match v
    case Null => Some(None)
    case Str(s) => Some(Some(s))
    case _ => None
  }

  function ToOptInt(v: Value): Option<Option<int>> {
    match v
    case Null => Some(None)
    case Int(i) => Some(Some(i))
    case _ => None
  }

  /** `str(v)` for a scalar. */
  function PyStr(v: Value): string {
    match v
    case Null => "None"
    case Bool(b) => if b then "True" else "False"
    case Int(i) => Text.IntToString(i)
    case Str(s) => s
  }

  /** Python truth value of a scalar. */
  predicate Truthy(v: Value) {
    match v
    case Null => false
    case Bool(b) => b
    case Int(i) => i != 0
    case Str(s) => s != []
  }

  /** `obj.get(key, default)` */
  function Get(obj: Object, key: string, default: Value): Value {
    if key in obj then obj[key] else default
  }

  /** `truncate(text, limit)` of the chat bridges applied to a JSON value:
      `(text or "")` turns every false value into "", a string is stripped
      and cut to `limit` characters, and any other true value has no `strip`
      and raises. */
  function TruncateValue(v: Value, limit: nat): (r: Result<string>)
    ensures !Truthy(v) ==> r == Ok("")
    ensures v.Str? ==> r == Ok(Text.Truncate(v.s, limit))
    ensures r.Err? <==> Truthy(v) && !v.Str?
  {
    if !Truthy(v) then Ok("")
    else if v.Str? then Ok(Text.Truncate(v.s, limit))
    else Err("AttributeError: object has no attribute 'strip'")
  }

  /** The job's stdout, stderr and error as the chat bridges show them, each
      passed through `TruncateValue` with a missing key read as "", in that
      order; the first that raises is the error. */
  function Outputs(job: Object, limit: nat): Result<(string, string, string)> {
    var out := TruncateValue(Get(job, "stdout", Str("")), limit);
    var err := TruncateValue(Get(job, "stderr", Str("")), limit);
    var error := TruncateValue(Get(job, "error", Str("")), limit);
    if out.Err? then Err(out.error)
    else if err.Err? then Err(err.error)
    else if error.Err? then Err(error.error)
    else Ok((out.value, err.value, error.value))
  }

  /** `job.get("status", "unknown")` */
  function StatusOf(job: Object): Value {
    Get(job, "status", Str("unknown"))
  }

  /** `status in {"queued", "running"}`: the job has not finished. */
  predicate IsActive(status: Value) {
    status == Str("queued") || status == Str("running")
  }
}
