/**
 * Decoded JSON values as `json.loads` hands them to the client, and the few
 * Python built-in behaviours on them that the client relies on: truthiness,
 * `v[key]`, iteration, `str(v)` and the exceptions these raise.
 */
module Json {
  import opened Wrappers

  /** A decoded JSON value; `Null` is Python's `None`. Numbers are integers. */
  datatype Value =
    | Null
    | Bool(b: bool)
    | Int(i: int)
    | Str(s: string)
    | Arr(items: seq<Value>)
    | Obj(fields: map<string, Value>)

  /** A decoded JSON object, as a Python dict with string keys. */
  type Record = map<string, Value>

  /** The Python exceptions the modelled code can raise. */
  datatype Error =
    | KeyError(key: Value)            // `d[k]` with `k` not in `d`
    | TypeError                       // indexing or iterating a value that does not support it
    | ValueError                      // `list.remove(x)` with `x` not in the list
    | AttributeError(attribute: string) // reading an attribute that was never assigned
    | Raised(argument: Value)         // `raise Exception(argument)`

  /** `k in r and r[k] is not None` */
  predicate Given(r: Record, k: string) {
    k in r && r[k] != Null
  }

  /** Python truthiness of a decoded value. */
  predicate Truthy(v: Value) {
    match v
    case Null => false
    case Bool(b) => b
    case Int(i) => i != 0
    case Str(s) => s != ""
    case Arr(items) => items != []
    case Obj(fields) => fields != map[]
  }

  /** `v[k]` for a string key `k`: only a dict can be indexed by a string. */
  function Index(v: Value, k: string): Result<Value, Error> {
    match v
    case Obj(m) => if k in m then Ok(m[k]) else Err(KeyError(Str(k)))
    case _ => Err(TypeError)
  }

  /**
   * The elements a `for x in v:` loop visits, in a loop whose body starts
   * by indexing `x` with a string key. A list yields its items. A dict or a
   * string yields keys or characters, which are strings, so indexing the
   * first one raises TypeError; an empty one yields nothing. Any other
   * value is not iterable.
   */
  function Elements(v: Value): (r: Result<seq<Value>, Error>)
    ensures v.Arr? ==> r == Ok(v.items)
    ensures r.Ok? && r.value != [] ==> v.Arr?
  {
    match v
    case Arr(items) => Ok(items)
    case Obj(m) => if m == map[] then Ok([]) else Err(TypeError)
    case Str(s) => if s == "" then Ok([]) else Err(TypeError)
    case _ => Err(TypeError)
  }

  /** `p in s` for strings: `p` occurs in `s` as a contiguous substring. */
  predicate Occurs(p: string, s: string) {
    exists i :: 0 <= i <= |s| && p <= s[i..]
  }

  predicate IsDigits(s: string) {
    forall i :: 0 <= i < |s| ==> '0' <= s[i] <= '9'
  }

  function DigitOf(d: nat): char
    requires d < 10
  {
    ('0' as int + d) as char
  }

  /** Decimal digits of `n`, most significant first, without leading zeros. */
  function NatToDecimal(n: nat): (s: string)
    ensures s != [] && IsDigits(s)
    ensures s[0] == '0' ==> n == 0 && s == "0"
    decreases n
  {
    if n < 10 then [DigitOf(n)] else NatToDecimal(n / 10) + [DigitOf(n % 10)]
  }

  function DecimalToNat(s: string): nat
    requires IsDigits(s)
    decreases |s|
  {
    if s == [] then 0 else 10 * DecimalToNat(s[..|s| - 1]) + (s[|s| - 1] as int - '0' as int)
  }

  /** `str(i)` for a Python int. */
  function IntToDecimal(i: int): (s: string)
    ensures s != [] && forall k :: 0 <= k < |s| ==> s[k] == '-' || '0' <= s[k] <= '9'
  {
    if i < 0 then "-" + NatToDecimal(-i) else NatToDecimal(i)
  }

  /** `int(s)` restricted to an optional minus sign followed by digits. */
  function ParseInt(s: string): Option<int> {
    if |s| > 1 && s[0] == '-' && IsDigits(s[1..]) then Some(0 - DecimalToNat(s[1..]) as int)
    else if s != [] && IsDigits(s) then Some(DecimalToNat(s))
    else None
  }

  lemma {:induction false} NatDecimalRoundTrip(n: nat)
    ensures DecimalToNat(NatToDecimal(n)) == n
  {
    if n >= 10 {
      var s := NatToDecimal(n);
      assert s == NatToDecimal(n / 10) + [DigitOf(n % 10)];
      assert s[..|s| - 1] == NatToDecimal(n / 10);
      NatDecimalRoundTrip(n / 10);
    }
  }

  /** `int(str(i)) == i`: the decimal text of an integer denotes it. */
  lemma IntDecimalRoundTrip(i: int)
    ensures ParseInt(IntToDecimal(i)) == Some(i)
  {
    if i < 0 {
      var s := IntToDecimal(i);
      assert s[1..] == NatToDecimal(-i);
      NatDecimalRoundTrip(-i);
    } else {
      NatDecimalRoundTrip(i);
    }
  }

  /**
   * `str(v)` (and `f"{v}"`) of a decoded value. A string is itself; `None`,
   * booleans and integers print as Python prints them.
   */
  function PyStr(v: Value): string {
    match v
    case Null => "None"
    case Bool(b) => if b then "True" else "False"
    case Int(i) => IntToDecimal(i)
    case Str(s) => s
    case Arr(_) => "[...]"
    case Obj(_) => "{...}"
  }
}
