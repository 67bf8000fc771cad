/**
 * The dynamically typed values the cache stores and the proxy receives, with just enough
 * structure to model `Object.keys` (the shape test) and JavaScript truthiness (the proxy's
 * empty-payload test).
 */
module JsValues {
  import opened Wrappers

  datatype JsValue =
    | Undefined
    | Null
    | Bool(b: bool)
    | Num(n: int)
    | Str(s: string)
    | Arr(elems: seq<JsValue>)
    | Obj(props: seq<Property>)

  /** One own enumerable property of an object, in insertion order. */
  datatype Property = Property(name: string, value: JsValue)

  /** The names of a property list, in order. */
  function Names(props: seq<Property>): (r: seq<string>)
    ensures |r| == |props|
    ensures forall i :: 0 <= i < |props| ==> r[i] == props[i].name
  {
    seq(|props|, i requires 0 <= i < |props| => props[i].name)
  }

  lemma NamesAppend(a: seq<Property>, b: seq<Property>)
    ensures Names(a + b) == Names(a) + Names(b)
  {
    assert forall i :: 0 <= i < |a + b| ==> Names(a + b)[i] == (Names(a) + Names(b))[i];
  }

  /** Property lists of real objects never repeat a name. */
  ghost predicate DistinctNames(props: seq<Property>) {
    forall i, j :: 0 <= i < j < |props| ==> props[i].name != props[j].name
  }

  function Digit(d: nat): char
    requires d < 10
  {
    "0123456789"[d]
  }

  /** Decimal rendering of an array or string index, as JavaScript names it. */
  function NatToString(n: nat): (r: string)
    ensures |r| > 0
  {
    if n < 10 then [Digit(n)] else NatToString(n / 10) + [Digit(n % 10)]
  }

  /** The index property names "0", "1", ..., of a string or array of length `n`. */
  function IndexKeys(n: nat): (r: seq<string>)
    ensures |r| == n
    ensures forall i :: 0 <= i < n ==> r[i] == NatToString(i)
  {
    seq(n, i requires 0 <= i < n => NatToString(i))
  }

  /**
   * The length JavaScript reports for a string: its UTF-16 code units. A character outside the
   * basic multilingual plane (code point 0x10000 and above) is a surrogate pair and counts twice.
   */
  function Utf16Length(s: string): (n: nat)
    ensures |s| <= n <= 2 * |s|
  {
    if |s| == 0 then 0
    else (if s[0] as int >= 0x1_0000 then 2 else 1) + Utf16Length(s[1..])
  }

  /** A string within the basic multilingual plane has one code unit per character. */
  lemma {:induction false} Utf16LengthBmp(s: string)
    requires forall i :: 0 <= i < |s| ==> (s[i] as int) < 0x1_0000
    ensures Utf16Length(s) == |s|
  {
    if |s| > 0 {
      assert forall i :: 0 <= i < |s| - 1 ==> s[1..][i] == s[i + 1];
      Utf16LengthBmp(s[1..]);
    }
  }

  /** `Object.keys` is defined for this value (it throws a TypeError on undefined and null). */
  predicate HasKeys(v: JsValue) {
    !v.Undefined? && !v.Null?
  }

  /**
   * `Object.keys(v)`: None is the TypeError thrown for undefined and null; booleans and numbers
   * have no own keys; strings (one index per UTF-16 code unit) and arrays have their index
   * names; objects their property names.
   */
  function ObjectKeys(v: JsValue): (r: Option<seq<string>>)
    ensures r.Some? <==> HasKeys(v)
    ensures v.Str? ==> r == Some(IndexKeys(Utf16Length(v.s)))
    ensures v.Arr? ==> r == Some(IndexKeys(|v.elems|))
    ensures v.Obj? ==> r == Some(Names(v.props))
    ensures v.Bool? || v.Num? ==> r == Some([])
  {
    match v
    case Undefined => None
    case Null => None
    case Bool(_) => Some([])
    case Num(_) => Some([])
    case Str(s) => Some(IndexKeys(Utf16Length(s)))
    case Arr(elems) => Some(IndexKeys(|elems|))
    case Obj(props) => Some(Names(props))
  }

  /** JavaScript falsiness: undefined, null, false, 0 and the empty string. */
  predicate IsFalsy(v: JsValue) {
    v.Undefined? || v.Null? || v == Bool(false) || v == Num(0) || v == Str("")
  }

  /** The value of the first property called `name`, if any. */
  function Field(props: seq<Property>, name: string): (r: Option<JsValue>)
    ensures r.Some? <==> name in Names(props)
  {
    if |props| == 0 then None
    else if props[0].name == name then Some(props[0].value)
    else Field(props[1..], name)
  }
}
