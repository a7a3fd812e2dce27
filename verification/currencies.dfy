/**
 `get_currencies` (task_7/currencies.py) after the network read and the JSON
 decode: the argument check, the error taxonomy and the per-code extraction of
 `Valute[code]["Value"]`. The read and the decode are an input outcome.
 */
module Currencies {
  import opened Wrappers
  import opened Python

  /** A decoded JSON document, as `json.loads` returns it. */
  datatype Json =
    | JNull
    | JBool(b: bool)
    | JInt(i: int)
    | JFloat(f: real)
    | JString(s: string)
    | JArray(items: seq<Json>)
    | JObject(fields: map<string, Json>)

  /** What reading the URL and decoding its body produced. */
  datatype Fetched =
    | TransportFailed  // urlopen raised URLError, HTTPError, TimeoutError or OSError
    | DecodeFailed     // the body was not UTF-8 or not JSON
    | Decoded(doc: Json)

  /** The `currency_codes` argument: a list of codes, or a value that is not a list. */
  datatype CodesArg = CodeList(codes: seq<string>) | NotAList

  const CODES_NOT_LIST_MSG := "currency_codes must be a list"
  const API_UNAVAILABLE_MSG := "API unavailable"
  const INVALID_JSON_MSG := "Invalid JSON"
  const VALUTE_KEY := "Valute"
  const VALUTE_NOT_DICT_MSG := "Valute must be a dict"
  const VALUE_KEY := "Value"
  const VALUE_TYPE_SUFFIX := ".Value must be int/float"

  // ------------------------------------------------------------ dict of rates

  /** A Python dict from code to rate, in insertion order. */
  type Rates = seq<(string, real)>

  predicate DistinctKeys(d: Rates) {
    forall i, j :: 0 <= i < j < |d| ==> d[i].0 != d[j].0
  }

  function Keys(d: Rates): set<string> {
    set i | 0 <= i < |d| :: d[i].0
  }

  /** `d.get(k)` */
  function Get(d: Rates, k: string): (r: Option<real>)
    ensures r.Some? <==> k in Keys(d)
    ensures r.Some? ==> exists i :: 0 <= i < |d| && d[i] == (k, r.value)
    ensures DistinctKeys(d) ==> forall i :: 0 <= i < |d| && d[i].0 == k ==> r == Some(d[i].1)
  {
    if d == [] then None
    else if d[0].0 == k then Some(d[0].1)
    else
      var r := Get(d[1..], k);
      assert Keys(d) == {d[0].0} + Keys(d[1..]) by {
        forall x | x in Keys(d) ensures x in {d[0].0} + Keys(d[1..]) {
          var i :| 0 <= i < |d| && d[i].0 == x;
          if i > 0 {
            assert d[1..][i - 1].0 == x;
          }
        }
        forall x | x in Keys(d[1..]) ensures x in Keys(d) {
          var i :| 0 <= i < |d[1..]| && d[1..][i].0 == x;
          assert d[i + 1].0 == x;
        }
      }
      assert r.Some? ==> exists i :: 0 <= i < |d| && d[i] == (k, r.value) by {
        if r.Some? {
          var i :| 0 <= i < |d[1..]| && d[1..][i] == (k, r.value);
          assert d[i + 1] == (k, r.value);
        }
      }
      assert DistinctKeys(d) ==> forall i :: 0 <= i < |d| && d[i].0 == k ==> r == Some(d[i].1) by {
        if DistinctKeys(d) {
          forall i | 0 <= i < |d| && d[i].0 == k ensures r == Some(d[i].1) {
            assert i > 0;
            assert d[1..][i - 1] == d[i];
          }
        }
      }
      r
  }

  /** `d[k] = v`: overwrites in place when `k` is present, appends otherwise. */
  function DictSet(d: Rates, k: string, v: real): (r: Rates)
    ensures Keys(r) == Keys(d) + {k}
    ensures DistinctKeys(d) ==> DistinctKeys(r)
    ensures |r| == if k in Keys(d) then |d| else |d| + 1
    ensures forall i :: 0 <= i < |d| ==> r[i] == if d[i].0 == k then (k, v) else d[i]
    ensures k !in Keys(d) ==> r[|d|] == (k, v)
  {
    if k in Keys(d) then
      var r := seq(|d|, i requires 0 <= i < |d| => if d[i].0 == k then (k, v) else d[i]);
      assert Keys(r) == Keys(d) by {
        forall x | x in Keys(d) ensures x in Keys(r) {
          var i :| 0 <= i < |d| && d[i].0 == x;
          assert r[i].0 == x;
        }
      }
      r
    else
      var r := d + [(k, v)];
      assert Keys(r) == Keys(d) + {k} by {
        forall x | x in Keys(d) ensures x in Keys(r) {
          var i :| 0 <= i < |d| && d[i].0 == x;
          assert r[i].0 == x;
        }
        assert r[|d|].0 == k;
      }
      r
  }

  // ------------------------------------------------------------ payload checks

  /** `needle` occurs in `s` as a contiguous substring. */
  predicate IsSubstring(needle: string, s: string) {
    exists i :: 0 <= i <= |s| && needle <= s[i..]
  }

  /** Python's type name of a JSON scalar, as it appears in a "not iterable" TypeError. */
  function ScalarTypeName(j: Json): string
    requires j.JNull? || j.JBool? || j.JInt? || j.JFloat?
  {
    match j
    case JNull => "NoneType"
    case JBool(_) => "bool"
    case JInt(_) => "int"
    case JFloat(_) => "float"
  }

  /**
   `if "Valute" not in data: raise KeyError("Valute")`, then `data["Valute"]`,
   for every shape `data` can have. On a list or a string, `in` tests element
   membership or substring, and when that test passes the indexing by a string
   raises TypeError; on a scalar, `in` itself raises TypeError.
   */
  function ValuteEntry(doc: Json): (r: Result<Json, Exc>)
    ensures doc.JObject? ==> r == if VALUTE_KEY in doc.fields then Success(doc.fields[VALUTE_KEY])
                                  else Failure(KeyError(VALUTE_KEY))
    ensures r.Success? ==> doc.JObject?
    ensures doc.JArray? ==> r.Failure? && (r.error.KeyError? <==> JString(VALUTE_KEY) !in doc.items)
    ensures doc.JString? ==> r.Failure? && (r.error.KeyError? <==> !IsSubstring(VALUTE_KEY, doc.s))
    ensures r.Failure? && r.error.KeyError? ==> r.error.key == VALUTE_KEY
    ensures r.Failure? ==> r.error.KeyError? || r.error.TypeError?
    ensures doc.JNull? || doc.JBool? || doc.JInt? || doc.JFloat? ==> r.Failure? && r.error.TypeError?
  {
    match doc
    case JObject(m) =>
      if VALUTE_KEY in m then Success(m[VALUTE_KEY]) else Failure(KeyError(VALUTE_KEY))
    case JArray(xs) =>
      if JString(VALUTE_KEY) in xs then Failure(TypeError("list indices must be integers or slices, not str"))
      else Failure(KeyError(VALUTE_KEY))
    case JString(s) =>
      if IsSubstring(VALUTE_KEY, s) then Failure(TypeError("string indices must be integers"))
      else Failure(KeyError(VALUTE_KEY))
    case _ =>
      Failure(TypeError("argument of type '" + ScalarTypeName(doc) + "' is not iterable"))
  }

  /** The `Valute` object of the payload, or the exception the lookup and the dict check raise. */
  function Valute(doc: Json): (r: Result<map<string, Json>, Exc>)
    ensures ValuteEntry(doc).Failure? ==> r == ValuteEntry(doc).PropagateFailure()
    ensures ValuteEntry(doc).Success? && !ValuteEntry(doc).value.JObject?
            ==> r == Failure(TypeError(VALUTE_NOT_DICT_MSG))
    ensures r.Success? <==> doc.JObject? && VALUTE_KEY in doc.fields && doc.fields[VALUTE_KEY].JObject?
    ensures r.Success? ==> r.value == doc.fields[VALUTE_KEY].fields
  {
    var entry :- ValuteEntry(doc);
    if entry.JObject? then Success(entry.fields) else Failure(TypeError(VALUTE_NOT_DICT_MSG))
  }

  /** `valute[code]` is an object with a `"Value"` field. */
  predicate HasValueField(valute: map<string, Json>, code: string) {
    code in valute && valute[code].JObject? && VALUE_KEY in valute[code].fields
  }

  /** `valute[code]["Value"]` exists and is an int or a float (JSON `true`/`false` are bools, not numbers). */
  predicate IsQuoted(valute: map<string, Json>, code: string) {
    HasValueField(valute, code)
    && (valute[code].fields[VALUE_KEY].JInt? || valute[code].fields[VALUE_KEY].JFloat?)
  }

  /** `float(valute[code]["Value"])` */
  function QuotedRate(valute: map<string, Json>, code: string): real
    requires IsQuoted(valute, code)
  {
    match valute[code].fields[VALUE_KEY]
    case JInt(i) => i as real
    case JFloat(f) => f
  }

  /**
   One iteration of the loop over the codes: an absent code raises
   KeyError(code); an entry that is not an object or has no "Value" raises
   KeyError(code + ".Value"); a value that is a bool or not a number raises
   TypeError. No sign or range check is made.
   */
  function CodeRate(valute: map<string, Json>, code: string): (r: Result<real, Exc>)
    ensures code !in valute ==> r == Failure(KeyError(code))
    ensures code in valute && !HasValueField(valute, code) ==> r == Failure(KeyError(code + "." + VALUE_KEY))
    ensures HasValueField(valute, code) && !IsQuoted(valute, code) ==> r == Failure(TypeError(code + VALUE_TYPE_SUFFIX))
    ensures IsQuoted(valute, code) ==> r == Success(QuotedRate(valute, code))
  {
    if code !in valute then Failure(KeyError(code))
    else if !HasValueField(valute, code) then Failure(KeyError(code + "." + VALUE_KEY))
    else if !IsQuoted(valute, code) then Failure(TypeError(code + VALUE_TYPE_SUFFIX))
    else Success(QuotedRate(valute, code))
  }

  /** Every entry of `d` carries the rate the payload quotes for its code. */
  predicate FromValute(valute: map<string, Json>, d: Rates) {
    forall i :: 0 <= i < |d| ==> IsQuoted(valute, d[i].0) && d[i].1 == QuotedRate(valute, d[i].0)
  }

  /**
   The loop `for code in currency_codes: ... result[code] = float(value)`,
   continuing from the dict `acc` built so far; its contract is stated by
   ExtractSucceeds and ExtractFailsAtFirst.
   */
  function Extract(valute: map<string, Json>, codes: seq<string>, acc: Rates): (r: Result<Rates, Exc>)
    ensures r.Success? <==> forall k :: 0 <= k < |codes| ==> IsQuoted(valute, codes[k])
    decreases |codes|
  {
    if codes == [] then Success(acc)
    else
      var v :- CodeRate(valute, codes[0]);
      Extract(valute, codes[1..], DictSet(acc, codes[0], v))
  }

  /**
   The loop succeeds exactly when every code is quoted. It then adds every
   code, each with its quoted rate, keeps the dict built so far as a prefix,
   and never duplicates a key.
   */
  lemma {:induction false} ExtractSucceeds(valute: map<string, Json>, codes: seq<string>, acc: Rates)
    requires DistinctKeys(acc) && FromValute(valute, acc)
    ensures Extract(valute, codes, acc).Success? <==> forall k :: 0 <= k < |codes| ==> IsQuoted(valute, codes[k])
    ensures Extract(valute, codes, acc).Success? ==>
              var d := Extract(valute, codes, acc).value;
              && DistinctKeys(d) && FromValute(valute, d) && acc <= d
              && forall c :: c in Keys(d) <==> c in Keys(acc) || c in codes
    decreases |codes|
  {
    if codes != [] {
      var c := codes[0];
      if IsQuoted(valute, c) {
        var v := QuotedRate(valute, c);
        var acc' := DictSet(acc, c, v);
        assert FromValute(valute, acc') by {
          forall i | 0 <= i < |acc'| ensures IsQuoted(valute, acc'[i].0) && acc'[i].1 == QuotedRate(valute, acc'[i].0) {
            if i < |acc| && acc[i].0 != c {
              assert acc'[i] == acc[i];
            }
          }
        }
        assert acc <= acc' by {
          forall i | 0 <= i < |acc| ensures acc'[i] == acc[i] {
            assert acc[i].0 == c ==> acc[i].1 == v;
          }
        }
        ExtractSucceeds(valute, codes[1..], acc');
        assert (forall k :: 0 <= k < |codes| ==> IsQuoted(valute, codes[k]))
               <==> (forall k :: 0 <= k < |codes[1..]| ==> IsQuoted(valute, codes[1..][k])) by {
          if forall k :: 0 <= k < |codes[1..]| ==> IsQuoted(valute, codes[1..][k]) {
            forall k | 0 <= k < |codes| ensures IsQuoted(valute, codes[k]) {
              if k > 0 {
                assert codes[k] == codes[1..][k - 1];
              }
            }
          }
        }
        assert forall x :: x in codes <==> x == c || x in codes[1..] by {
          assert codes == [c] + codes[1..];
        }
      } else {
        assert !(forall k :: 0 <= k < |codes| ==> IsQuoted(valute, codes[k]));
      }
    }
  }

  /**
   When the loop fails, it fails with the exception of the first code that is
   not quoted: every code before it is quoted.
   */
  lemma {:induction false} ExtractFailsAtFirst(valute: map<string, Json>, codes: seq<string>, acc: Rates)
    ensures Extract(valute, codes, acc).Failure? ==>
              exists k :: 0 <= k < |codes| && !IsQuoted(valute, codes[k])
                          && (forall j :: 0 <= j < k ==> IsQuoted(valute, codes[j]))
                          && Extract(valute, codes, acc).error == CodeRate(valute, codes[k]).error
    decreases |codes|
  {
    if codes != [] && Extract(valute, codes, acc).Failure? {
      var c := codes[0];
      if !IsQuoted(valute, c) {
        assert Extract(valute, codes, acc).error == CodeRate(valute, codes[0]).error;
      } else {
        var acc' := DictSet(acc, c, QuotedRate(valute, c));
        ExtractFailsAtFirst(valute, codes[1..], acc');
        var k :| 0 <= k < |codes[1..]| && !IsQuoted(valute, codes[1..][k])
                 && (forall j :: 0 <= j < k ==> IsQuoted(valute, codes[1..][j]))
                 && Extract(valute, codes[1..], acc').error == CodeRate(valute, codes[1..][k]).error;
        assert codes[k + 1] == codes[1..][k];
        forall j | 0 <= j < k + 1 ensures IsQuoted(valute, codes[j]) {
          if j > 0 {
            assert codes[j] == codes[1..][j - 1];
          }
        }
      }
    }
  }

  /**
   `get_currencies(currency_codes)` once the response has been read and
   decoded. Errors come in this order: a non-list argument (TypeError, before
   any I/O), the transport (ConnectionError), the decode (ValueError), the
   `Valute` lookup (KeyError, or TypeError on a payload that is not an
   object), a `Valute` that is not an object (TypeError), and then the codes
   in list order. On success the dict has exactly the requested codes as keys,
   each mapped to its quoted value; any error returns no dict at all.
   */
  function GetCurrencies(arg: CodesArg, fetched: Fetched): (r: Result<Rates, Exc>)
    ensures arg.NotAList? ==> r == Failure(TypeError(CODES_NOT_LIST_MSG))
    ensures arg.CodeList? && fetched.TransportFailed? ==> r == Failure(ConnectionError(API_UNAVAILABLE_MSG))
    ensures arg.CodeList? && fetched.DecodeFailed? ==> r == Failure(ValueError(INVALID_JSON_MSG))
    ensures arg.CodeList? && fetched.Decoded? && Valute(fetched.doc).Failure?
            ==> r == Valute(fetched.doc).PropagateFailure()
    ensures r.Success? <==>
              && arg.CodeList? && fetched.Decoded? && Valute(fetched.doc).Success?
              && forall k :: 0 <= k < |arg.codes| ==> IsQuoted(Valute(fetched.doc).value, arg.codes[k])
    ensures r.Success? ==> DistinctKeys(r.value) && forall c :: c in Keys(r.value) <==> c in arg.codes
    ensures r.Success? ==> FromValute(Valute(fetched.doc).value, r.value)
    ensures arg.CodeList? && fetched.Decoded? && Valute(fetched.doc).Success? && r.Failure? ==>
              var valute := Valute(fetched.doc).value;
              exists k :: 0 <= k < |arg.codes| && !IsQuoted(valute, arg.codes[k])
                          && (forall j :: 0 <= j < k ==> IsQuoted(valute, arg.codes[j]))
                          && r.error == CodeRate(valute, arg.codes[k]).error
  {
    match arg
    case NotAList => Failure(TypeError(CODES_NOT_LIST_MSG))
    case CodeList(codes) =>
      match fetched
      case TransportFailed => Failure(ConnectionError(API_UNAVAILABLE_MSG))
      case DecodeFailed => Failure(ValueError(INVALID_JSON_MSG))
      case Decoded(doc) =>
        var valute :- Valute(doc);
        ExtractSucceeds(valute, codes, []);
        ExtractFailsAtFirst(valute, codes, []);
        Extract(valute, codes, [])
  }

  // ------------------------------------------------------------ cases from task_7/test_currencies.py

  lemma CorrectReturnCase()
    ensures GetCurrencies(CodeList(["USD", "EUR"]), Decoded(JObject(map["Valute" := JObject(map[
              "USD" := JObject(map["Value" := JFloat(93.25)]),
              "EUR" := JObject(map["Value" := JFloat(101.7)])])])))
            == Success([("USD", 93.25), ("EUR", 101.7)])
  {
    var usd := JObject(map["Value" := JFloat(93.25)]);
    var eur := JObject(map["Value" := JFloat(101.7)]);
    var both := map["USD" := usd, "EUR" := eur];
    assert Valute(JObject(map["Valute" := JObject(both)])) == Success(both);
    var one: Rates := [("USD", 93.25)];
    var two: Rates := [("USD", 93.25), ("EUR", 101.7)];
    assert DictSet([], "USD", 93.25) == one by {
      assert "USD" !in Keys([]);
    }
    assert DictSet(one, "EUR", 101.7) == two by {
      assert "EUR" !in Keys(one);
    }
    assert Extract(both, ["EUR"][1..], two) == Success(two);
    assert Extract(both, ["EUR"], one) == Success(two);
    assert Extract(both, ["USD", "EUR"][1..], one) == Success(two);
  }

  lemma MissingCurrencyCase()
    ensures GetCurrencies(CodeList(["EUR"]), Decoded(JObject(map["Valute" := JObject(map[
              "USD" := JObject(map["Value" := JFloat(93.25)])])])))
            == Failure(KeyError("EUR"))
  {
    var only := map["USD" := JObject(map["Value" := JFloat(93.25)])];
    assert Valute(JObject(map["Valute" := JObject(only)])) == Success(only);
  }

  lemma MissingValuteCase()
    ensures GetCurrencies(CodeList(["USD"]), Decoded(JObject(map["SomethingElse" := JObject(map[])])))
            == Failure(KeyError("Valute"))
  {
  }

  lemma TransportAndDecodeCases()
    ensures GetCurrencies(CodeList(["USD"]), DecodeFailed) == Failure(ValueError(INVALID_JSON_MSG))
    ensures GetCurrencies(CodeList(["USD"]), TransportFailed) == Failure(ConnectionError(API_UNAVAILABLE_MSG))
  {
  }

  lemma WrongValueTypeCase()
    ensures GetCurrencies(CodeList(["USD"]), Decoded(JObject(map["Valute" := JObject(map[
              "USD" := JObject(map["Value" := JString("93.25")])])])))
            == Failure(TypeError("USD.Value must be int/float"))
  {
    var text := map["USD" := JObject(map["Value" := JString("93.25")])];
    var e := TypeError("USD.Value must be int/float");
    assert Extract(text, ["USD"], []) == Failure(e) by {
      assert HasValueField(text, "USD");
      assert !IsQuoted(text, "USD");
      assert "USD" + VALUE_TYPE_SUFFIX == "USD.Value must be int/float";
      assert CodeRate(text, "USD") == Failure(e);
    }
    assert Valute(JObject(map["Valute" := JObject(text)])) == Success(text);
  }
}
