/**
 * Loosely typed JavaScript values as the services receive them (query-string
 * objects, decoded request bodies), with the JavaScript coercions the services
 * apply to them: truthiness, `String(v)`, `Number(v)` and `parseInt(s, 10)`.
 * Numbers are integers here; fractional numbers are outside the model.
 */
module Json {
  import opened Wrappers

  /** A decoded value. Object entries keep their order, which is JavaScript's own-key order. */
  datatype Json =
    | JNull
    | JBool(b: bool)
    | JNum(n: int)
    | JStr(s: string)
    | JArr(items: seq<Json>)
    | JObj(fields: seq<(string, Json)>)

  /** `obj[key]`; of duplicate keys the last one wins, as in `JSON.parse`. None is `undefined`. */
  function Get(fields: seq<(string, Json)>, key: string): (r: Option<Json>)
    ensures r.Some? <==> exists i :: 0 <= i < |fields| && fields[i].0 == key
    ensures r.Some? ==> (key, r.value) in fields
  {
    if fields == [] then None
    else if fields[|fields| - 1].0 == key then Some(fields[|fields| - 1].1)
    else
      var r := Get(fields[..|fields| - 1], key);
      assert forall i :: 0 <= i < |fields| - 1 ==> fields[..|fields| - 1][i] == fields[i];
      r
  }

  /** The rest object of `const { [key]: _, ...rest } = obj`: the other entries, in their order. */
  function Without(fields: seq<(string, Json)>, key: string): (r: seq<(string, Json)>)
    ensures |r| <= |fields|
    ensures forall e :: e in r <==> e in fields && e.0 != key
  {
    if fields == [] then []
    else
      var last := fields[|fields| - 1];
      var r := Without(fields[..|fields| - 1], key) + (if last.0 == key then [] else [last]);
      assert fields == fields[..|fields| - 1] + [last];
      r
  }

  /** A key read after one more entry: that entry if it has the key, else what was there before. */
  lemma GetAppend(fields: seq<(string, Json)>, e: (string, Json), k: string)
    ensures Get(fields + [e], k) == if e.0 == k then Some(e.1) else Get(fields, k)
  {
    assert (fields + [e])[..|fields|] == fields;
  }

  /** Removing one key leaves every other key's value as it was, and that key absent. */
  lemma {:induction false} GetWithout(fields: seq<(string, Json)>, key: string, other: string)
    ensures Get(Without(fields, key), key) == None
    ensures other != key ==> Get(Without(fields, key), other) == Get(fields, other)
  {
    if fields != [] {
      var init := fields[..|fields| - 1];
      var last := fields[|fields| - 1];
      assert fields == init + [last];
      GetWithout(init, key, other);
      var w := Without(init, key);
      GetAppend(init, last, key);
      GetAppend(init, last, other);
      if last.0 != key {
        assert Without(fields, key) == w + [last];
        GetAppend(w, last, key);
        GetAppend(w, last, other);
      } else {
        assert Without(fields, key) == w;
      }
    }
  }

  /** A string's `.length`: its UTF-16 code units, two for a character beyond U+FFFF. */
  function Utf16Length(s: string): (n: nat)
    ensures |s| <= n <= 2 * |s|
    ensures n == 0 <==> s == []
  {
    if s == [] then 0
    else Utf16Length(s[..|s| - 1]) + (if s[|s| - 1] as int > 0xFFFF then 2 else 1)
  }

  /** Outside the astral planes `.length` is the number of characters. */
  lemma {:induction false} Utf16LengthBasic(s: string)
    requires forall i | 0 <= i < |s| :: s[i] as int <= 0xFFFF
    ensures Utf16Length(s) == |s|
  {
    if s != [] {
      Utf16LengthBasic(s[..|s| - 1]);
    }
  }

  /** Two emoji are two characters but four UTF-16 code units. */
  lemma Utf16LengthAstral()
    ensures |"\U{1F600}\U{1F600}"| == 2
    ensures Utf16Length("\U{1F600}\U{1F600}") == 4
  {
    assert "\U{1F600}\U{1F600}"[..1] == "\U{1F600}";
    assert "\U{1F600}"[..0] == "";
  }

  /** The entries of a JavaScript object: no key occurs twice. */
  predicate DistinctKeys(fields: seq<(string, Json)>) {
    forall i, j | 0 <= i < j < |fields| :: fields[i].0 != fields[j].0
  }

  /** In an object, reading an entry's key gives that entry's value. */
  lemma DistinctGet(fields: seq<(string, Json)>, i: int)
    requires DistinctKeys(fields) && 0 <= i < |fields|
    ensures Get(fields, fields[i].0) == Some(fields[i].1)
  {
    var r := Get(fields, fields[i].0);
    assert r.Some?;
    var j :| 0 <= j < |fields| && fields[j] == (fields[i].0, r.value);
    assert j == i;
  }

  /** The rest object of an object is an object. */
  lemma {:induction false} WithoutDistinct(fields: seq<(string, Json)>, key: string)
    requires DistinctKeys(fields)
    ensures DistinctKeys(Without(fields, key))
  {
    if fields != [] {
      var init := fields[..|fields| - 1];
      var last := fields[|fields| - 1];
      assert forall i | 0 <= i < |init| :: init[i] == fields[i];
      WithoutDistinct(init, key);
      var w := Without(init, key);
      assert Without(fields, key) == w + (if last.0 == key then [] else [last]);
      if last.0 != key {
        forall i | 0 <= i < |w| ensures w[i].0 != last.0 {
          assert w[i] in init;
          var k :| 0 <= k < |init| && init[k] == w[i];
          assert fields[k] == w[i];
        }
      }
    }
  }

  /**
   * `{ ...fields, [key]: v }` as the database reads it: the key takes the new
   * value, and an `undefined` value (None) leaves the key out.
   */
  function Put(fields: seq<(string, Json)>, key: string, v: Option<Json>): (r: seq<(string, Json)>)
    ensures Get(r, key) == v
    ensures forall k | k != key :: Get(r, k) == Get(fields, k)
  {
    var rest := Without(fields, key);
    forall k | true ensures Get(rest, k) == if k == key then None else Get(fields, k) {
      GetWithout(fields, key, k);
    }
    if v.Some? then
      forall k | true ensures Get(rest + [(key, v.value)], k) == if k == key then v else Get(rest, k) {
        GetAppend(rest, (key, v.value), k);
      }
      rest + [(key, v.value)]
    else rest
  }

  /** JavaScript truthiness of a possibly undefined value. */
  predicate Truthy(v: Option<Json>) {
    match v
    case None => false
    case Some(JNull) => false
    case Some(JBool(b)) => b
    case Some(JNum(n)) => n != 0
    case Some(JStr(s)) => s != ""
    case Some(_) => true  // arrays and objects, even empty ones
  }

  predicate IsDigit(c: char) {
    '0' <= c <= '9'
  }

  predicate AllDigits(s: string) {
    forall i | 0 <= i < |s| :: IsDigit(s[i])
  }

  /** The white space that `parseInt` and `Number` skip (the Unicode space separators beyond these are not modelled). */
  predicate IsSpace(c: char) {
    c == ' ' || c == '\t' || c == '\n' || c == '\r'
    || c as int == 0x0B || c as int == 0x0C || c as int == 0xA0 || c as int == 0xFEFF
  }

  function DigitChar(d: nat): (c: char)
    requires d < 10
    ensures IsDigit(c)
  {
    (('0' as int) + d) as char
  }

  /** The longest prefix of s made of decimal digits. */
  function DigitPrefix(s: string): (d: string)
    ensures d <= s && AllDigits(d)
    ensures |d| < |s| ==> !IsDigit(s[|d|])
  {
    if s == [] || !IsDigit(s[0]) then [] else [s[0]] + DigitPrefix(s[1..])
  }

  /** The value of a run of decimal digits. */
  function DigitsValue(d: string): nat
    requires AllDigits(d)
  {
    if d == [] then 0 else DigitsValue(d[..|d| - 1]) * 10 + ((d[|d| - 1] as int) - ('0' as int))
  }

  /** Decimal text of a natural number, without leading zeros. */
  function NatText(n: nat): (s: string)
    ensures s != [] && AllDigits(s)
  {
    if n < 10 then [DigitChar(n)] else NatText(n / 10) + [DigitChar(n % 10)]
  }

  /** `String(n)` for an integer. */
  function IntText(n: int): (s: string)
    ensures s != [] && (IsDigit(s[0]) || s[0] == '-')
  {
    if n < 0 then "-" + NatText(-n) else NatText(n)
  }

  function TrimStart(s: string): (t: string)
    ensures |t| <= |s| && t == s[|s| - |t|..]
    ensures t == [] || !IsSpace(t[0])
  {
    if s != [] && IsSpace(s[0]) then TrimStart(s[1..]) else s
  }

  function TrimEnd(s: string): (t: string)
    ensures |t| <= |s| && t == s[..|t|]
    ensures t == [] || !IsSpace(t[|t| - 1])
  {
    if s != [] && IsSpace(s[|s| - 1]) then TrimEnd(s[..|s| - 1]) else s
  }

  /**
   * `parseInt(s, 10)`: leading white space is skipped, then an optional sign,
   * then the longest run of decimal digits is read and the rest ignored.
   * None stands for NaN, the result when no digit follows.
   */
  function ParseInt(s: string): Option<int> {
    var t := TrimStart(s);
    var negative := t != [] && t[0] == '-';
    var body := if t != [] && (t[0] == '-' || t[0] == '+') then t[1..] else t;
    var digits := DigitPrefix(body);
    var value: int := DigitsValue(digits);
    if digits == [] then None else Some(if negative then -value else value)
  }

  /** Text that is exactly an optional sign followed by at least one decimal digit. */
  function SignedDigits(s: string): Option<int> {
    var negative := s != [] && s[0] == '-';
    var body := if s != [] && (s[0] == '-' || s[0] == '+') then s[1..] else s;
    if body != [] && AllDigits(body) then
      var value: int := DigitsValue(body);
      Some(if negative then -value else value)
    else None
  }

  /**
   * `Number(s)` for a string: surrounding white space is ignored, blank text is 0,
   * integer text is its value. Fractional, exponent, hexadecimal and `Infinity`
   * spellings are outside the model and read as NaN (None).
   */
  function NumberText(s: string): Option<int> {
    var t := TrimEnd(TrimStart(s));
    if t == [] then Some(0) else SignedDigits(t)
  }

  /** `Array.prototype.join(",")` of already converted elements. */
  function Join(parts: seq<string>): string {
    if parts == [] then ""
    else if |parts| == 1 then parts[0]
    else Join(parts[..|parts| - 1]) + "," + parts[|parts| - 1]
  }

  /** `String(v)`; inside an array, `null` becomes the empty string. */
  function JsString(v: Json): string
    decreases v
  {
    match v
    case JNull => "null"
    case JBool(b) => if b then "true" else "false"
    case JNum(n) => IntText(n)
    case JStr(s) => s
    case JArr(items) =>
      Join(seq(|items|, i requires 0 <= i < |items| => if items[i].JNull? then "" else JsString(items[i])))
    case JObj(_) => "[object Object]"
  }

  /** `Number(v)` for a possibly undefined value; None is NaN. Arrays and objects go through their string form. */
  function ToNumber(v: Option<Json>): Option<int> {
    match v
    case None => None
    case Some(JNull) => Some(0)
    case Some(JBool(b)) => Some(if b then 1 else 0)
    case Some(JNum(n)) => Some(n)
    case Some(JStr(s)) => NumberText(s)
    case Some(other) => NumberText(JsString(other))
  }

  lemma {:induction false} NatTextValue(n: nat)
    ensures DigitsValue(NatText(n)) == n
  {
    if n >= 10 {
      NatTextValue(n / 10);
      var s := NatText(n);
      assert s[..|s| - 1] == NatText(n / 10);
    }
  }

  /** The digit prefix stops exactly where the digits stop. */
  lemma {:induction false} DigitPrefixOfDigits(d: string, tail: string)
    requires AllDigits(d)
    requires tail == [] || !IsDigit(tail[0])
    ensures DigitPrefix(d + tail) == d
  {
    if d != [] {
      assert (d + tail)[1..] == d[1..] + tail;
      DigitPrefixOfDigits(d[1..], tail);
    } else {
      assert d + tail == tail;
    }
  }

  /** Text that starts with a digit or a minus sign has no white space to skip. */
  lemma NoLeadingSpace(s: string)
    requires s != [] && (IsDigit(s[0]) || s[0] == '-')
    ensures TrimStart(s) == s
  {
  }

  /** `parseInt` on text that starts with digits reads exactly those digits. */
  lemma ParseIntOfDigits(d: string, tail: string)
    requires d != [] && AllDigits(d)
    requires tail == [] || !IsDigit(tail[0])
    ensures ParseInt(d + tail) == Some(DigitsValue(d))
  {
    assert (d + tail)[0] == d[0];
    NoLeadingSpace(d + tail);
    DigitPrefixOfDigits(d, tail);
  }

  /** `parseInt` reads back the decimal text of any integer, whatever non-digit text follows it. */
  lemma ParseIntOfText(n: int, tail: string)
    requires tail == [] || !IsDigit(tail[0])
    ensures ParseInt(IntText(n) + tail) == Some(n)
  {
    var m: nat := if n < 0 then -n else n;
    var d := NatText(m);
    NatTextValue(m);
    if n < 0 {
      var s := "-" + (d + tail);
      assert IntText(n) + tail == s;
      NoLeadingSpace(s);
      assert s[1..] == d + tail;
      DigitPrefixOfDigits(d, tail);
    } else {
      ParseIntOfDigits(d, tail);
    }
  }

  /** The decimal text of an integer has no surrounding white space to trim. */
  lemma IntTextTrimmed(n: int)
    ensures TrimEnd(TrimStart(IntText(n))) == IntText(n)
  {
    var s := IntText(n);
    NoLeadingSpace(s);
    var m: nat := if n < 0 then -n else n;
    var d := NatText(m);
    assert s[|s| - 1] == d[|d| - 1];
    assert IsDigit(s[|s| - 1]);
  }

  /** The decimal text of an integer is a signed digit run with that value. */
  lemma IntTextSigned(n: int)
    ensures SignedDigits(IntText(n)) == Some(n)
  {
    var m: nat := if n < 0 then -n else n;
    NatTextValue(m);
    if n < 0 {
      assert IntText(n)[1..] == NatText(m);
    }
  }

  /** A one-element array converts to its element's text. */
  lemma SingletonText(n: int)
    ensures JsString(JArr([JNum(n)])) == IntText(n)
  {
    var items := [JNum(n)];
    var parts := seq(|items|, i requires 0 <= i < |items| => if items[i].JNull? then "" else JsString(items[i]));
    assert parts == [IntText(n)];
  }

  /** `Number` of integer text is that integer. */
  lemma NumberTextOfInt(n: int)
    ensures NumberText(IntText(n)) == Some(n)
  {
    IntTextTrimmed(n);
    IntTextSigned(n);
  }

  /** `Number` reads back the decimal text of any integer, as a string or as a one-element array. */
  lemma NumberOfText(n: int)
    ensures ToNumber(Some(JStr(IntText(n)))) == Some(n)
    ensures ToNumber(Some(JArr([JNum(n)]))) == Some(n)
  {
    NumberTextOfInt(n);
    SingletonText(n);
  }
}
