/**
 * JSON values as the Python code sees them after `json.load` /
 * `response.json()`: None, bool, int, str, list and dict, with the three
 * Python operations the modelled code applies to them: truthiness
 * (`if not fup`), `==` against an int literal (`car == 1`) and `str()`
 * (the charger setter's string comparison, the bearer header).
 * A dict is a sequence of (key, value) pairs in insertion order.
 */
module JsonValue {
  import opened Common

  datatype Json =
    | JNull
    | JBool(b: bool)
    | JInt(i: int)
    | JStr(s: string)
    | JArr(items: seq<Json>)
    | JObj(fields: seq<(string, Json)>)

  /** Python truthiness: None, False, 0, "", [] and {} are false. */
  predicate Truthy(v: Json)
    ensures !Truthy(v) <==> v in {JNull, JBool(false), JInt(0), JStr(""), JArr([]), JObj([])}
  {
    match v
    case JNull => false
    case JBool(b) => b
    case JInt(i) => i != 0
    case JStr(s) => s != ""
    case JArr(items) => items != []
    case JObj(fields) => fields != []
  }

  /** Python `v == n` for an int literal `n`: a bool compares as 0 or 1,
      every non-number compares unequal. */
  predicate EqualsInt(v: Json, n: int)
    ensures EqualsInt(v, n) <==> v == JInt(n) || (n == 1 && v == JBool(true)) || (n == 0 && v == JBool(false))
  {
    match v
    case JBool(b) => (if b then 1 else 0) == n
    case JInt(i) => i == n
    case _ => false
  }

  // ---------------------------------------------------------------------
  // Decimal rendering of integers (`str(int)`)

  function DigitChar(d: int): char
    requires 0 <= d < 10
  {
    ('0' as int + d) as char
  }

  predicate IsDigit(c: char) {
    '0' <= c <= '9'
  }

  function NatToDecimal(n: nat): (s: string)
    ensures |s| >= 1
    ensures forall k | 0 <= k < |s| :: IsDigit(s[k])
    ensures n >= 10 ==> |s| >= 2
  {
    if n < 10 then [DigitChar(n)] else NatToDecimal(n / 10) + [DigitChar(n % 10)]
  }

  function IntToDecimal(i: int): (s: string)
    ensures |s| >= 1 && (s[0] == '-' <==> i < 0) && (i >= 0 ==> IsDigit(s[0]))
  {
    if i < 0 then "-" + NatToDecimal(-i) else NatToDecimal(i)
  }

  /** Different naturals have different decimal forms. */
  lemma {:induction false} NatToDecimalInjective(a: nat, b: nat)
    requires NatToDecimal(a) == NatToDecimal(b)
    ensures a == b
  {
    var sa, sb := NatToDecimal(a), NatToDecimal(b);
    if a < 10 && b < 10 {
      assert sa[0] == DigitChar(a) && sb[0] == DigitChar(b);
    } else if a >= 10 && b >= 10 {
      var pa, pb := NatToDecimal(a / 10), NatToDecimal(b / 10);
      assert sa == pa + [DigitChar(a % 10)] && sb == pb + [DigitChar(b % 10)];
      assert |pa| == |pb|;
      assert sa[|sa| - 1] == DigitChar(a % 10) && sb[|sb| - 1] == DigitChar(b % 10);
      assert pa == sa[..|sa| - 1] && pb == sb[..|sb| - 1];
      NatToDecimalInjective(a / 10, b / 10);
    }
  }

  /** `str(a) == str(b)` holds for two ints exactly when `a == b`. */
  lemma IntToDecimalInjective(a: int, b: int)
    ensures IntToDecimal(a) == IntToDecimal(b) <==> a == b
  {
    assert IntToDecimal(a)[0] == '-' <==> a < 0;
    assert IntToDecimal(b)[0] == '-' <==> b < 0;
    if IntToDecimal(a) == IntToDecimal(b) {
      if a < 0 && b < 0 {
        assert NatToDecimal(-a) == IntToDecimal(a)[1..];
        assert NatToDecimal(-b) == IntToDecimal(b)[1..];
        NatToDecimalInjective(-a, -b);
      } else if a >= 0 && b >= 0 {
        NatToDecimalInjective(a, b);
      }
    }
  }

  // ---------------------------------------------------------------------
  // `str()` and `repr()` of JSON values

  /** Python `str(v)`. */
  function Str(v: Json): (s: string)
    decreases v, 0
    ensures s == "None" <==> v == JNull || v == JStr("None")
  {
    match v
    case JNull => "None"
    case JBool(b) => if b then "True" else "False"
    case JInt(i) => IntToDecimal(i)
    case JStr(s) => s
    case JArr(items) =>
      var t := "[" + Join(seq(|items|, k requires 0 <= k < |items| => Repr(items[k])), ", ") + "]";
      assert t[0] == '[';
      t
    case JObj(fields) =>
      var t := "{" + Join(seq(|fields|, k requires 0 <= k < |fields| =>
                            Quote(fields[k].0) + ": " + Repr(fields[k].1)), ", ") + "}";
      assert t[0] == '{';
      t
  }

  /** Python `repr(v)` as used for the elements of a list or dict. */
  function Repr(v: Json): string
    decreases v, 1
  {
    if v.JStr? then Quote(v.s) else Str(v)
  }

  /** `repr` of a string: single quotes (quote selection and escaping are
      not modelled). */
  function Quote(s: string): string {
    "'" + s + "'"
  }

  function Join(parts: seq<string>, sep: string): string {
    if |parts| == 0 then ""
    else if |parts| == 1 then parts[0]
    else parts[0] + sep + Join(parts[1..], sep)
  }

  /** The only JSON values whose `str()` is "1" are the int 1 and the
      string "1"; in particular `True` (str "True") is not among them. */
  lemma StrIsOne(v: Json)
    ensures Str(v) == "1" <==> v == JInt(1) || v == JStr("1")
  {
    if v.JInt? && Str(v) == "1" {
      assert IntToDecimal(1) == "1";
      IntToDecimalInjective(v.i, 1);
    }
  }

  // ---------------------------------------------------------------------
  // dict operations

  function Keys(fields: seq<(string, Json)>): (ks: seq<string>)
    ensures |ks| == |fields|
    ensures forall k | 0 <= k < |fields| :: ks[k] == fields[k].0
  {
    if |fields| == 0 then [] else [fields[0].0] + Keys(fields[1..])
  }

  /** Python `d.get(key)`: the value under `key`, or None. */
  function Get(fields: seq<(string, Json)>, key: string): (r: Option<Json>)
    ensures r.None? <==> key !in Keys(fields)
    ensures r.Some? ==> (key, r.value) in fields
  {
    if |fields| == 0 then None
    else if fields[0].0 == key then Some(fields[0].1)
    else Get(fields[1..], key)
  }

  /** Of several entries with the same key, `Get` sees the first. */
  lemma {:induction false} GetFindsFirst(fields: seq<(string, Json)>, key: string, k: nat)
    requires k < |fields| && fields[k].0 == key
    requires key !in Keys(fields[..k])
    ensures Get(fields, key) == Some(fields[k].1)
  {
    if k > 0 {
      assert fields[0].0 == Keys(fields[..k])[0];
      assert Keys(fields[1..][..k - 1]) == Keys(fields[..k])[1..];
      GetFindsFirst(fields[1..], key, k - 1);
    }
  }

  /** `d.get(key)` with a missing key read as None. */
  function GetOrNone(fields: seq<(string, Json)>, key: string): Json {
    match Get(fields, key)
    case Some(v) => v
    case None => JNull
  }

  /** Python `d[key] = value`: an existing key keeps its position, a new
      key goes to the end. */
  function Set(fields: seq<(string, Json)>, key: string, value: Json): (r: seq<(string, Json)>)
    ensures key in Keys(fields) ==> Keys(r) == Keys(fields)
    ensures key !in Keys(fields) ==> Keys(r) == Keys(fields) + [key]
    ensures Get(r, key) == Some(value)
  {
    if |fields| == 0 then [(key, value)]
    else if fields[0].0 == key then
      assert ([(key, value)] + fields[1..])[1..] == fields[1..];
      [(key, value)] + fields[1..]
    else
      var rest := Set(fields[1..], key, value);
      assert ([fields[0]] + rest)[1..] == rest;
      [fields[0]] + rest
  }

  /** Setting one key leaves what every other key reads unchanged. */
  lemma {:induction false} SetKeepsOtherKeys(fields: seq<(string, Json)>, key: string, value: Json, other: string)
    requires other != key
    ensures Get(Set(fields, key, value), other) == Get(fields, other)
  {
    if |fields| > 0 && fields[0].0 != key {
      SetKeepsOtherKeys(fields[1..], key, value, other);
    }
  }
}
