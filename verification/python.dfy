/**
 The slice of Python's runtime semantics that the models rely on: dynamically
 typed values, the exceptions the code raises, `str.strip()`, `str.upper()`,
 `float()`, and the two checks every validating setter is built from.
 */
module Python {
  import opened Wrappers

  /** A Python value as a setter or a JSON decoder may receive it. */
  datatype PyValue =
    | PyNone
    | PyBool(b: bool)
    | PyInt(i: int)
    | PyFloat(f: real)
    | PyStr(s: string)
    | PyConvertible(x: real)  // an object `float()` converts through `__float__` or `__index__` (a `Decimal`, a `Fraction`); `x` is what that yields
    | PyObject  // any other object: a list, a dict, an instance of some class

  /** The exceptions raised by the modelled code, with their messages. */
  datatype Exc =
    | TypeError(msg: string)
    | ValueError(msg: string)
    | KeyError(key: string)
    | ConnectionError(msg: string)

  /**
   The effect of the statement `obj.attr = v` on an object whose setter
   validates: the object afterwards, and the exception raised, if any.
   */
  datatype Assignment<T> = Assignment(obj: T, raised: Option<Exc>)

  /**
   A guarded write: the setter's checks produced `checked`; only when they
   passed is `write` applied, otherwise the object is left as it was.
   */
  function Assign<T, X>(obj: T, checked: Result<X, Exc>, write: X -> T): (r: Assignment<T>)
    ensures checked.Failure? ==> r == Assignment(obj, Some(checked.error))
    ensures checked.Success? ==> r == Assignment(write(checked.value), None)
  {
    match checked
    case Success(x) => Assignment(write(x), None)
    case Failure(e) => Assignment(obj, Some(e))
  }

  /** `isinstance(v, int)`; true of booleans as well, because `bool` subclasses `int`. */
  predicate IsInt(v: PyValue) {
    v.PyInt? || v.PyBool?
  }

  /** The integer an `int` or `bool` stands for (`True == 1`, `False == 0`). */
  function IntOf(v: PyValue): int
    requires IsInt(v)
  {
    match v
    case PyInt(i) => i
    case PyBool(b) => if b then 1 else 0
  }

  /** `isinstance(v, (int, float)) and not isinstance(v, bool)` */
  predicate IsRealNumber(v: PyValue) {
    v.PyInt? || v.PyFloat?
  }

  /** `float(v)` for an `int` or a `float`. */
  function NumberOf(v: PyValue): real
    requires IsRealNumber(v)
  {
    if v.PyInt? then v.i as real else v.f
  }

  const FLOAT_ARG_MSG := "float() argument must be a string or a real number"
  const FLOAT_PARSE_MSG := "could not convert string to float"

  /**
   `float(v)`. Parsing a string is the interpreter's own grammar; it is passed in
   as `parseFloat`, which answers None for text `float()` rejects.
   */
  function FloatOf(v: PyValue, parseFloat: string -> Option<real>): (r: Result<real, Exc>)
    ensures v.PyBool? ==> r == Success(if v.b then 1.0 else 0.0)
    ensures IsRealNumber(v) ==> r == Success(NumberOf(v))
    ensures v.PyStr? ==> r == parseFloat(v.s).ToResultOr(ValueError(FLOAT_PARSE_MSG))
    ensures v.PyConvertible? ==> r == Success(v.x)
    ensures v.PyNone? || v.PyObject? ==> r == Failure(TypeError(FLOAT_ARG_MSG))
  {
    match v
    case PyBool(b) => Success(if b then 1.0 else 0.0)
    case PyInt(i) => Success(i as real)
    case PyFloat(f) => Success(f)
    case PyStr(s) => parseFloat(s).ToResultOr(ValueError(FLOAT_PARSE_MSG))
    case PyConvertible(x) => Success(x)
    case _ => Failure(TypeError(FLOAT_ARG_MSG))
  }

  /** Python's `str.isspace()` for one character: exactly the characters `str.strip()` removes. */
  predicate IsSpace(c: char) {
    || c == ' '
    || ('\t' <= c <= '\r')
    || ('\U{1C}' <= c <= '\U{1F}')
    || c == '\U{85}'
    || c == '\U{A0}'
    || c == '\U{1680}'
    || ('\U{2000}' <= c <= '\U{200A}')
    || c == '\U{2028}'
    || c == '\U{2029}'
    || c == '\U{202F}'
    || c == '\U{205F}'
    || c == '\U{3000}'
  }

  predicate AllSpace(s: string) {
    forall i :: 0 <= i < |s| ==> IsSpace(s[i])
  }

  /** Neither starts nor ends with whitespace: what `str.strip()` returns. */
  predicate IsStripped(s: string) {
    s == [] || (!IsSpace(s[0]) && !IsSpace(s[|s| - 1]))
  }

  /** `r` is `s` with some whitespace removed from its two ends. */
  ghost predicate TrimmedOf(r: string, s: string) {
    exists i, j :: 0 <= i <= j <= |s| && r == s[i..j] && AllSpace(s[..i]) && AllSpace(s[j..])
  }

  /** Length of the longest all-whitespace prefix of `s`. */
  function LeadingSpace(s: string): (n: nat)
    ensures n <= |s|
    ensures forall k :: 0 <= k < n ==> IsSpace(s[k])
    ensures n < |s| ==> !IsSpace(s[n])
  {
    if |s| == 0 || !IsSpace(s[0]) then 0 else 1 + LeadingSpace(s[1..])
  }

  /** Length of the longest all-whitespace suffix of `s`. */
  function TrailingSpace(s: string): (n: nat)
    ensures n <= |s|
    ensures forall k :: |s| - n <= k < |s| ==> IsSpace(s[k])
    ensures n < |s| ==> !IsSpace(s[|s| - n - 1])
  {
    if |s| == 0 || !IsSpace(s[|s| - 1]) then 0 else 1 + TrailingSpace(s[..|s| - 1])
  }

  /**
   `s.strip()`: removes all leading and trailing whitespace. The result is the
   largest whitespace-trimmed slice of `s` that neither starts nor ends with
   whitespace, and it is empty exactly when `s` is all whitespace.
   */
  function Strip(s: string): (r: string)
    ensures |r| <= |s|
    ensures TrimmedOf(r, s)
    ensures IsStripped(r)
    ensures r == [] <==> AllSpace(s)
  {
    var i := LeadingSpace(s);
    var t := s[i..];
    var r := t[..|t| - TrailingSpace(t)];
    assert r == s[i..i + |r|];
    assert AllSpace(s[..i]);
    var tail := s[i + |r|..];
    assert AllSpace(tail) by {
      forall k | 0 <= k < |tail|
        ensures IsSpace(tail[k])
      {
        assert tail[k] == t[|r| + k];
      }
    }
    assert r == [] ==> AllSpace(s) by {
      if r == [] {
        assert s == s[..i] + tail;
        AllSpaceAppend(s[..i], tail);
      }
    }
    r
  }

  lemma AllSpaceAppend(a: string, b: string)
    requires AllSpace(a) && AllSpace(b)
    ensures AllSpace(a + b)
  {
    forall k | 0 <= k < |a + b|
      ensures IsSpace((a + b)[k])
    {
      if k >= |a| {
        assert (a + b)[k] == b[k - |a|];
      }
    }
  }

  /** Stripping a string that is already stripped changes nothing. */
  lemma StripStripped(s: string)
    requires IsStripped(s)
    ensures Strip(s) == s
  {
    assert LeadingSpace(s) == 0;
    assert s[0..] == s;
  }

  /** `s.strip().strip() == s.strip()` */
  lemma StripIdempotent(s: string)
    ensures Strip(Strip(s)) == Strip(s)
  {
    StripStripped(Strip(s));
  }

  /** `c.upper()` for ASCII letters; every other character is left as it is. */
  function UpperChar(c: char): char {
    if 'a' <= c <= 'z' then (c as int - 'a' as int + 'A' as int) as char else c
  }

  predicate IsLowerAscii(c: char) {
    'a' <= c <= 'z'
  }

  /** `s.upper()`, character by character. */
  function Upper(s: string): (r: string)
    ensures |r| == |s|
    ensures forall k :: 0 <= k < |s| ==> r[k] == UpperChar(s[k])
  {
    seq(|s|, k requires 0 <= k < |s| => UpperChar(s[k]))
  }

  /** Upper-casing leaves no lower-case ASCII letter and keeps whitespace where it was. */
  lemma UpperProperties(s: string)
    ensures forall k :: 0 <= k < |s| ==> !IsLowerAscii(Upper(s)[k])
    ensures forall k :: 0 <= k < |s| ==> (IsSpace(Upper(s)[k]) <==> IsSpace(s[k]))
    ensures Upper(Upper(s)) == Upper(s)
  {
  }

  /** Upper-casing a stripped string leaves it stripped. */
  lemma UpperKeepsStripped(s: string)
    requires IsStripped(s)
    ensures IsStripped(Upper(s))
  {
    UpperProperties(s);
  }

  /** What `PositiveInt` accepts: a positive `int`, or `True`. */
  predicate IsPositiveInt(v: PyValue) {
    (v.PyInt? && v.i > 0) || v == PyBool(true)
  }

  /** What `NonBlankStr` accepts: a string with a non-whitespace character. */
  predicate IsNonBlankStr(v: PyValue) {
    v.PyStr? && !AllSpace(v.s)
  }

  /** A field value the string setters can have stored. */
  predicate NonBlankStripped(s: string) {
    s != [] && IsStripped(s)
  }

  /**
   The check `not isinstance(v, int) or v <= 0` that raises `ValueError(msg)`;
   on success, the integer to store.
   */
  function PositiveInt(v: PyValue, msg: string): (r: Result<int, Exc>)
    ensures r.Success? <==> IsPositiveInt(v)
    ensures r.Success? ==> r.value > 0 && r.value == IntOf(v)
    ensures r.Failure? ==> r.error == ValueError(msg)
  {
    if IsInt(v) && IntOf(v) > 0 then Success(IntOf(v)) else Failure(ValueError(msg))
  }

  /**
   The check `not isinstance(v, str) or not v.strip()` that raises
   `ValueError(msg)`; on success, the stripped text to store.
   */
  function NonBlankStr(v: PyValue, msg: string): (r: Result<string, Exc>)
    ensures r.Success? <==> IsNonBlankStr(v)
    ensures r.Success? ==> r.value == Strip(v.s) && NonBlankStripped(r.value)
    ensures r.Failure? ==> r.error == ValueError(msg)
  {
    if v.PyStr? && Strip(v.s) != [] then Success(Strip(v.s)) else Failure(ValueError(msg))
  }
}
