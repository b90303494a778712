/**
 * The JavaScript values the task list meets when it reads JSON: the parsed
 * value itself, and the coercions `String(v)`, `Boolean(v)` and
 * `String.prototype.trim` that the handlers apply to it.
 */
module JsValues {

  /** A value produced by `JSON.parse`. Numbers are modelled as integers;
      an object maps each key to its last value in the text. */
  datatype Json =
    | JNull
    | JBool(b: bool)
    | JNum(n: int)
    | JStr(s: string)
    | JArr(items: seq<Json>)
    | JObj(fields: map<string, Json>)

  predicate IsDigit(c: char) { '0' <= c <= '9' }

  /** Decimal digits of a natural number, most significant first, no leading zero. */
  function NatString(n: nat): (r: string)
    ensures |r| >= 1
    ensures forall i :: 0 <= i < |r| ==> IsDigit(r[i])
    ensures |r| > 1 ==> r[0] != '0'
    decreases n
  {
    var d := ['0' + (n % 10) as char];
    if n < 10 then d else NatString(n / 10) + d
  }

  /** The value of a string of decimal digits. */
  function DigitsValue(s: string): nat
    requires forall i :: 0 <= i < |s| ==> IsDigit(s[i])
  {
    if s == [] then 0
    else
      var c := s[|s| - 1];
      assert IsDigit(c);
      DigitsValue(s[..|s| - 1]) * 10 + (c as int - '0' as int)
  }

  /** Reading back the digits of `String(n)` gives `n`: the decimal form loses nothing. */
  lemma {:induction false} NatStringValue(n: nat)
    ensures DigitsValue(NatString(n)) == n
    decreases n
  {
    var d := ['0' + (n % 10) as char];
    if n >= 10 {
      NatStringValue(n / 10);
      var s := NatString(n / 10) + d;
      assert s[..|s| - 1] == NatString(n / 10);
    }
  }

  /** `String(n)` for an integral number: an optional minus sign, then decimal digits. */
  function IntString(n: int): (r: string)
    ensures n >= 0 ==> r == NatString(n)
    ensures n < 0 ==> r == ['-'] + NatString(-n)
  {
    if n < 0 then ['-'] + NatString(-n) else NatString(n)
  }

  /** `parts.join(sep)`. */
  function Join(parts: seq<string>, sep: string): (r: string)
    ensures parts == [] ==> r == []
    ensures |parts| == 1 ==> r == parts[0]
  {
    if parts == [] then []
    else if |parts| == 1 then parts[0]
    else Join(parts[..|parts| - 1], sep) + sep + parts[|parts| - 1]
  }

  /** `String(v)` throws a TypeError. An object from `JSON.parse` with an own
      `toString` key hides the inherited method behind a value that is never a
      function, and the inherited `valueOf` returns the object itself, which is not
      a primitive; an array throws as soon as `join` meets an element that throws. */
  predicate StringThrows(v: Json)
    decreases v
  {
    match v
    case JObj(fields) => "toString" in fields
    case JArr(items) => exists i :: 0 <= i < |items| && StringThrows(items[i])
    case _ => false
  }

  /** `String(v)` when it does not throw: strings are themselves, numbers print in
      decimal, arrays join their elements with commas (a null element joins as the
      empty string), plain objects print as `[object Object]`. */
  function JsString(v: Json): (r: string)
    requires !StringThrows(v)
    ensures v.JStr? ==> r == v.s
    ensures v.JNum? && v.n >= 0 ==>
              && |r| >= 1 && (|r| > 1 ==> r[0] != '0')
              && (forall i :: 0 <= i < |r| ==> IsDigit(r[i])) && DigitsValue(r) == v.n
    ensures v.JNum? && v.n < 0 ==>
              && |r| >= 2 && r[0] == '-' && (|r| > 2 ==> r[1] != '0')
              && (forall i :: 1 <= i < |r| ==> IsDigit(r[i]))
              && DigitsValue(r[1..]) == -v.n
    ensures v.JBool? ==> r == if v.b then "true" else "false"
    ensures v.JObj? ==> r == "[object Object]"
    ensures v.JArr? && v.items == [] ==> r == ""
    decreases v
  {
    match v
    case JNull => "null"
    case JBool(b) => if b then "true" else "false"
    case JNum(n) =>
      NatStringValue(if n < 0 then -n else n);
      var r := IntString(n);
      assert n < 0 ==> r[1..] == NatString(-n);
      r
    case JStr(s) => s
    case JArr(items) =>
      Join(seq(|items|, i requires 0 <= i < |items| =>
             if items[i] == JNull then "" else JsString(items[i])), ",")
    case JObj(_) => "[object Object]"
  }

  /** `String` of an array is its elements' texts joined with commas: appending an
      element appends a comma (unless the array was empty) and that element's text,
      the empty text for a null element. */
  lemma JsStringArrayAppend(items: seq<Json>, x: Json)
    requires !StringThrows(JArr(items + [x]))
    ensures !StringThrows(JArr(items)) && !StringThrows(x)
    ensures var last := if x == JNull then "" else JsString(x);
            JsString(JArr(items + [x])) ==
              if items == [] then last else JsString(JArr(items)) + "," + last
  {
    var all := items + [x];
    forall i | 0 <= i < |items| ensures !StringThrows(items[i]) {
      assert all[i] == items[i];
    }
    assert all[|items|] == x;
    var parts := seq(|all|, i requires 0 <= i < |all| =>
                   if all[i] == JNull then "" else JsString(all[i]));
    var front := seq(|items|, i requires 0 <= i < |items| =>
                   if items[i] == JNull then "" else JsString(items[i]));
    assert parts[..|parts| - 1] == front;
  }

  /** `Boolean(v)` for a value that is present: false exactly for the falsy values. */
  function Truthy(v: Json): (b: bool)
    ensures !b <==> v == JNull || v == JBool(false) || v == JNum(0) || v == JStr("")
  {
    match v
    case JNull => false
    case JBool(b) => b
    case JNum(n) => n != 0
    case JStr(s) => s != ""
    case JArr(_) => true
    case JObj(_) => true
  }

  /** The characters `String.prototype.trim` removes: the WhiteSpace and
      LineTerminator code points of ECMAScript (section 12.2 and 12.3 of
      ECMA-262). */
  predicate IsJsSpace(c: char) {
    var n := c as int;
    n == 0x09 || n == 0x0A || n == 0x0B || n == 0x0C || n == 0x0D || n == 0x20
    || n == 0xA0 || n == 0x1680 || (0x2000 <= n <= 0x200A)
    || n == 0x2028 || n == 0x2029 || n == 0x202F || n == 0x205F
    || n == 0x3000 || n == 0xFEFF
  }

  predicate AllSpace(s: string) {
    forall i :: 0 <= i < |s| ==> IsJsSpace(s[i])
  }

  /** The number of spaces `s` starts with. */
  function LeadingSpaces(s: string): (n: nat)
    ensures n <= |s|
    ensures forall k :: 0 <= k < n ==> IsJsSpace(s[k])
    ensures n < |s| ==> !IsJsSpace(s[n])
  {
    if s != [] && IsJsSpace(s[0]) then 1 + LeadingSpaces(s[1..]) else 0
  }

  /** The number of spaces `s` ends with. */
  function TrailingSpaces(s: string): (n: nat)
    ensures n <= |s|
    ensures forall k :: |s| - n <= k < |s| ==> IsJsSpace(s[k])
    ensures n < |s| ==> !IsJsSpace(s[|s| - n - 1])
  {
    if s != [] && IsJsSpace(s[|s| - 1]) then 1 + TrailingSpaces(s[..|s| - 1]) else 0
  }

  /** `s.trim()`: empty exactly when `s` is all space; otherwise the piece of `s`
      between its leading and its trailing spaces, which neither starts nor ends
      with a space. */
  function Trim(s: string): (r: string)
    ensures r == [] <==> AllSpace(s)
    ensures r != [] ==>
              && LeadingSpaces(s) + |r| + TrailingSpaces(s) == |s|
              && r == s[LeadingSpaces(s)..LeadingSpaces(s) + |r|]
              && !IsJsSpace(r[0]) && !IsJsSpace(r[|r| - 1])
  {
    var lead, trail := LeadingSpaces(s), TrailingSpaces(s);
    if lead == |s| then []
    else
      s[lead..|s| - trail]
  }
}
