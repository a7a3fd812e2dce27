/**
 The record classes of task_9/models, used by the SQLite-backed version of the
 application: `Currency`, whose only validated attributes are `char_code` and
 `value` (the others are stored as given and have no setter), and `User`, whose
 name is validated.
 */
module DbModels {
  import opened Wrappers
  import opened Python
  import Models

  const CHAR_CODE_MSG := "Код валюты должен состоять из 3 символов"
  const NEGATIVE_VALUE_MSG := "Курс валюты не может быть отрицательным"
  const USER_NAME_MSG := "Имя пользователя не может быть пустым"

  /**
   `num_code`, `name` and `nominal` are whatever the constructor was given and
   can only be read; `value` may be None.
   */
  datatype Currency = Currency(numCode: PyValue, charCode: string, name: PyValue, value: Option<real>, nominal: PyValue) {
    predicate Valid() {
      Models.IsCharCode(charCode) && (value.Some? ==> value.value >= 0.0)
    }
  }

  /** The checks of the `char_code` setter; on success the stripped, upper-cased code. */
  function CharCode(v: PyValue): (r: Result<string, Exc>)
    ensures r.Success? <==> Models.IsCharCodeArg(v)
    ensures r.Success? ==> r.value == Upper(Strip(v.s)) && Models.IsCharCode(r.value)
    ensures r.Failure? ==> r.error == ValueError(CHAR_CODE_MSG)
  {
    if !v.PyStr? || |Strip(v.s)| != 3 then
      Failure(ValueError(CHAR_CODE_MSG))
    else
      UpperKeepsStripped(Strip(v.s));
      UpperProperties(Strip(v.s));
      Success(Upper(Strip(v.s)))
  }

  /**
   The `value` setter's computation: None is kept as None; anything else goes
   through `float()`, whose TypeError or ValueError propagates, and a negative
   result raises ValueError. Zero is accepted.
   */
  function RateOrNone(v: PyValue, parseFloat: string -> Option<real>): (r: Result<Option<real>, Exc>)
    ensures v.PyNone? ==> r == Success(None)
    ensures !v.PyNone? && FloatOf(v, parseFloat).Failure? ==> r == FloatOf(v, parseFloat).PropagateFailure()
    ensures !v.PyNone? && FloatOf(v, parseFloat).Success? ==>
              if FloatOf(v, parseFloat).value < 0.0 then r == Failure(ValueError(NEGATIVE_VALUE_MSG))
              else r == Success(Some(FloatOf(v, parseFloat).value))
    ensures r.Success? && r.value.Some? ==> r.value.value >= 0.0
  {
    if v.PyNone? then Success(None)
    else
      var x :- FloatOf(v, parseFloat);
      if x < 0.0 then Failure(ValueError(NEGATIVE_VALUE_MSG)) else Success(Some(x))
  }

  /** `currency.char_code = v`; the other fields are untouched. */
  function SetCharCode(c: Currency, v: PyValue): (r: Assignment<Currency>)
    ensures r.raised.None? <==> Models.IsCharCodeArg(v)
    ensures r.raised.None? ==> r.obj == c.(charCode := Upper(Strip(v.s)))
    ensures r.raised.Some? ==> r.obj == c && r.raised == Some(ValueError(CHAR_CODE_MSG))
    ensures c.Valid() ==> r.obj.Valid()
  {
    Assign(c, CharCode(v), (s: string) => c.(charCode := s))
  }

  /** `currency.value = v`; a rejected value leaves the previous one in place. */
  function SetValue(c: Currency, v: PyValue, parseFloat: string -> Option<real>): (r: Assignment<Currency>)
    ensures v.PyNone? ==> r == Assignment(c.(value := None), None)
    ensures IsRealNumber(v) && NumberOf(v) >= 0.0 ==> r == Assignment(c.(value := Some(NumberOf(v))), None)
    ensures IsRealNumber(v) && NumberOf(v) < 0.0 ==> r == Assignment(c, Some(ValueError(NEGATIVE_VALUE_MSG)))
    ensures v.PyBool? ==> r == Assignment(c.(value := Some(if v.b then 1.0 else 0.0)), None)
    ensures v.PyStr? && parseFloat(v.s).None? ==> r == Assignment(c, Some(ValueError(FLOAT_PARSE_MSG)))
    ensures v.PyStr? && parseFloat(v.s).Some? ==>
              if parseFloat(v.s).value < 0.0 then r == Assignment(c, Some(ValueError(NEGATIVE_VALUE_MSG)))
              else r == Assignment(c.(value := parseFloat(v.s)), None)
    ensures v.PyConvertible? ==>
              if v.x < 0.0 then r == Assignment(c, Some(ValueError(NEGATIVE_VALUE_MSG)))
              else r == Assignment(c.(value := Some(v.x)), None)
    ensures v.PyObject? ==> r == Assignment(c, Some(TypeError(FLOAT_ARG_MSG)))
    ensures RateOrNone(v, parseFloat).Success? ==> r == Assignment(c.(value := RateOrNone(v, parseFloat).value), None)
    ensures RateOrNone(v, parseFloat).Failure? ==> r == Assignment(c, Some(RateOrNone(v, parseFloat).error))
    ensures r.raised.Some? ==> r.obj == c
    ensures r.raised.None? ==> r.obj == c.(value := r.obj.value)
    ensures c.Valid() ==> r.obj.Valid()
  {
    Assign(c, RateOrNone(v, parseFloat), (x: Option<real>) => c.(value := x))
  }

  /**
   `Currency(num_code, char_code, name, value, nominal)`: only `char_code` and
   then `value` are checked; the rest is stored as given.
   */
  function NewCurrency(numCode: PyValue, charCode: PyValue, name: PyValue, value: PyValue, nominal: PyValue,
                       parseFloat: string -> Option<real>): (r: Result<Currency, Exc>)
    ensures !Models.IsCharCodeArg(charCode) ==> r == Failure(ValueError(CHAR_CODE_MSG))
    ensures Models.IsCharCodeArg(charCode) && RateOrNone(value, parseFloat).Failure?
            ==> r == RateOrNone(value, parseFloat).PropagateFailure()
    ensures r.Success? <==> Models.IsCharCodeArg(charCode) && RateOrNone(value, parseFloat).Success?
    ensures r.Success? ==> r.value.numCode == numCode && r.value.name == name && r.value.nominal == nominal
    ensures r.Success? ==> r.value.charCode == Upper(Strip(charCode.s))
    ensures r.Success? ==> r.value.value == RateOrNone(value, parseFloat).value
    ensures r.Success? && value.PyNone? ==> r.value.value.None?
    ensures r.Success? && IsRealNumber(value) ==> r.value.value == Some(NumberOf(value))
    ensures r.Success? ==> r.value.Valid()
  {
    var cc :- CharCode(charCode);
    var v :- RateOrNone(value, parseFloat);
    Success(Currency(numCode, cc, name, v, nominal))
  }

  /** Unlike the task_8 model, a zero rate is accepted; both reject a negative one. */
  lemma ZeroRateOnlyHere(parseFloat: string -> Option<real>)
    ensures Models.Rate(PyFloat(0.0)) == Failure(ValueError(Models.CURRENCY_VALUE_MSG))
    ensures RateOrNone(PyFloat(0.0), parseFloat) == Success(Some(0.0))
    ensures Models.Rate(PyInt(-1)).Failure? && RateOrNone(PyInt(-1), parseFloat).Failure?
  {
  }

  datatype User = User(name: string) {
    predicate Valid() {
      NonBlankStripped(name)
    }
  }

  /** `user.name = v` */
  function SetUserName(u: User, v: PyValue): (r: Assignment<User>)
    ensures r.raised.None? <==> IsNonBlankStr(v)
    ensures r.raised.None? ==> r.obj == User(Strip(v.s))
    ensures r.raised.Some? ==> r.obj == u && r.raised == Some(ValueError(USER_NAME_MSG))
    ensures r.obj.Valid() || r.obj == u
  {
    Assign(u, NonBlankStr(v, USER_NAME_MSG), (s: string) => User(s))
  }

  /** `User(name)` */
  function NewUser(name: PyValue): (r: Result<User, Exc>)
    ensures r.Success? <==> IsNonBlankStr(name)
    ensures r.Success? ==> r.value == User(Strip(name.s)) && r.value.Valid()
    ensures r.Failure? ==> r.error == ValueError(USER_NAME_MSG)
  {
    var n :- NonBlankStr(name, USER_NAME_MSG);
    Success(User(n))
  }
}
