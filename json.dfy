/** The slice of Python and JSON semantics the game servers rely on: decoded JSON values,
    the exceptions the handlers catch, truthiness, `in`, `[]`, `dict.get`, `int()` and
    `str.lower()`. */
module Json {

  datatype Option<+T> = None | Some(value: T)

  /** A value as `json.loads` returns it (JSON floats are not modelled). */
  datatype Value =
    | Null
    | Bool(b: bool)
    | Int(i: int)
    | Str(s: string)
    | Arr(elems: seq<Value>)
    | Obj(fields: map<string, Value>)

  /** What `json.loads` makes of one received text. */
  datatype Doc = Malformed | Parsed(v: Value)

  /** The Python exceptions that the handlers distinguish. */
  datatype PyError = TypeError | ValueError | KeyError | AttributeError

  /** The outcome of one Python operation: a value, or a raised exception. */
  datatype Py<+T> = Ok(value: T) | Raise(err: PyError)

  /** Python truthiness (`if x:`). */
  predicate Truthy(v: Value) {
    match v
    case Null => false
    case Bool(b) => b
    case Int(i) => i != 0
    case Str(s) => s != ""
    case Arr(e) => e != []
    case Obj(f) => |f| != 0
  }

  predicate StartsWith(s: string, prefix: string) {
    |prefix| <= |s| && s[..|prefix|] == prefix
  }

  /** `key in s` for two strings. */
  predicate IsSubstring(key: string, s: string)
    decreases |s|
  {
    StartsWith(s, key) || (s != [] && IsSubstring(key, s[1..]))
  }

  /** `key in v`: a dict tests its keys, a list its elements, a string its substrings;
      `None`, booleans and numbers are not iterable. */
  function Has(key: string, v: Value): Py<bool> {
    match v
    case Obj(f) => Ok(key in f)
    case Arr(e) => Ok(Str(key) in e)
    case Str(s) => Ok(IsSubstring(key, s))
    case _ => Raise(TypeError)
  }

  /** `v[key]` with a string key. */
  function Index(v: Value, key: string): Py<Value> {
    match v
    case Obj(f) => if key in f then Ok(f[key]) else Raise(KeyError)
    case _ => Raise(TypeError)
  }

  /** `v.get(key)`: only a dict has the method. */
  function Get(v: Value, key: string): Py<Option<Value>> {
    match v
    case Obj(f) => Ok(if key in f then Some(f[key]) else None)
    case _ => Raise(AttributeError)
  }

  /** `int(v)`. */
  function ToInt(v: Value): Py<int> {
    match v
    case Bool(b) => Ok(if b then 1 else 0)
    case Int(i) => Ok(i)
    case Str(s) =>
      (match ParseInt(s)
       case Some(n) => Ok(n)
       case None => Raise(ValueError))
    case _ => Raise(TypeError)
  }

  /** The ASCII characters Python counts as whitespace: space, tab, line feed, vertical tab,
      form feed, carriage return and the four separators 0x1C-0x1F. */
  predicate IsSpace(ch: char) {
    ch == ' ' || '\t' <= ch <= '\r' || '\U{001C}' <= ch <= '\U{001F}'
  }

  predicate IsDigit(ch: char) { '0' <= ch <= '9' }

  function DigitValue(ch: char): int requires IsDigit(ch) { ch as int - '0' as int }

  function TrimLeft(s: string): string
    decreases |s|
  {
    if s != [] && IsSpace(s[0]) then TrimLeft(s[1..]) else s
  }

  function TrimRight(s: string): string
    decreases |s|
  {
    if s != [] && IsSpace(s[|s| - 1]) then TrimRight(s[..|s| - 1]) else s
  }

  function Strip(s: string): string { TrimRight(TrimLeft(s)) }

  predicate AllDigits(s: string) { forall i :: 0 <= i < |s| ==> IsDigit(s[i]) }

  /** The value of a string of decimal digits, most significant first. */
  function DigitsValue(s: string): int
    requires AllDigits(s)
    decreases |s|
  {
    if s == [] then 0 else DigitsValue(s[..|s| - 1]) * 10 + DigitValue(s[|s| - 1])
  }

  /** `int(s)` on a string: surrounding whitespace, an optional sign, at least one digit. */
  function ParseInt(s: string): Option<int> {
    var t := Strip(s);
    if t == [] then None
    else if t[0] == '-' || t[0] == '+' then
      var ds := t[1..];
      if ds != [] && AllDigits(ds) then Some(if t[0] == '-' then -DigitsValue(ds) else DigitsValue(ds))
      else None
    else if AllDigits(t) then Some(DigitsValue(t))
    else None
  }

  /** `str(n)` for a non-negative integer. */
  function ShowNat(n: nat): (s: string)
    ensures s != [] && AllDigits(s)
  {
    if n < 10 then ['0' + n as char] else ShowNat(n / 10) + ['0' + (n % 10) as char]
  }

  /** `str(n)`: the decimal numeral of an integer. */
  function Show(n: int): string {
    if n < 0 then "-" + ShowNat(-n) else ShowNat(n)
  }

  lemma {:induction false} DigitsValueShowNat(n: nat)
    ensures DigitsValue(ShowNat(n)) == n
  {
    if n >= 10 {
      var s := ShowNat(n);
      assert s[..|s| - 1] == ShowNat(n / 10);
      DigitsValueShowNat(n / 10);
    }
  }

  lemma TrimmedNumeral(s: string)
    requires s != [] && !IsSpace(s[0]) && !IsSpace(s[|s| - 1])
    ensures Strip(s) == s
  {
  }

  /** Parsing the decimal numeral of any integer gives the integer back. */
  lemma ParseShow(n: int)
    ensures ParseInt(Show(n)) == Some(n)
  {
    var s := Show(n);
    if n < 0 {
      var d := ShowNat(-n);
      assert s == "-" + d;
      assert !IsSpace(s[|s| - 1]) by { assert s[|s| - 1] == d[|d| - 1]; }
      TrimmedNumeral(s);
      assert s[1..] == d;
      DigitsValueShowNat(-n);
    } else {
      TrimmedNumeral(s);
      DigitsValueShowNat(n);
    }
  }

  /** `str.lower()` on the ASCII letters. */
  function Lower(s: string): (t: string)
    ensures |t| == |s|
  {
    seq(|s|, i requires 0 <= i < |s| => if 'A' <= s[i] <= 'Z' then (s[i] as int + 32) as char else s[i])
  }

  /** `s.lower() == "exit"` accepts exactly the sixteen letter-case spellings of "exit". */
  lemma LowerIsExit(s: string)
    ensures Lower(s) == "exit" <==>
      |s| == 4 && s[0] in "eE" && s[1] in "xX" && s[2] in "iI" && s[3] in "tT"
  {
    if |s| == 4 {
      var t := Lower(s);
      if t == "exit" {
        assert t[0] == 'e' && t[1] == 'x' && t[2] == 'i' && t[3] == 't';
      }
      if s[0] in "eE" && s[1] in "xX" && s[2] in "iI" && s[3] in "tT" {
        assert t[0] == 'e' && t[1] == 'x' && t[2] == 'i' && t[3] == 't';
        assert t == "exit";
      }
    }
  }
}
