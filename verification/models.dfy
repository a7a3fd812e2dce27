/**
 The validated record classes of task_8/myapp/models: `Author`, `App`, `User`,
 `Currency` and `UserCurrency`. Every attribute is a property whose setter
 checks type and range, may strip or upper-case the input, and writes only when
 the checks pass. A setter is modelled as a function from the object and the
 assigned Python value to an `Assignment` (the object afterwards and the
 exception raised, if any); `__init__`, which runs the setters in order, is a
 function to a `Result`.
 */
module Models {
  import opened Wrappers
  import opened Python

  // ---------------------------------------------------------------- Author

  const AUTHOR_NAME_MSG := "Author.name must be a non-empty string"
  const AUTHOR_GROUP_MSG := "Author.group must be a non-empty string"

  datatype Author = Author(name: string, group: string) {
    /** What the setters guarantee of a constructed author. */
    predicate Valid() {
      NonBlankStripped(name) && NonBlankStripped(group)
    }
  }

  /** `author.name = v` */
  function SetAuthorName(a: Author, v: PyValue): (r: Assignment<Author>)
    ensures r.raised.None? <==> IsNonBlankStr(v)
    ensures r.raised.None? ==> r.obj == a.(name := Strip(v.s))
    ensures r.raised.Some? ==> r.obj == a && r.raised == Some(ValueError(AUTHOR_NAME_MSG))
    ensures a.Valid() ==> r.obj.Valid()
  {
    Assign(a, NonBlankStr(v, AUTHOR_NAME_MSG), (s: string) => a.(name := s))
  }

  /** `author.group = v` */
  function SetAuthorGroup(a: Author, v: PyValue): (r: Assignment<Author>)
    ensures r.raised.None? <==> IsNonBlankStr(v)
    ensures r.raised.None? ==> r.obj == a.(group := Strip(v.s))
    ensures r.raised.Some? ==> r.obj == a && r.raised == Some(ValueError(AUTHOR_GROUP_MSG))
    ensures a.Valid() ==> r.obj.Valid()
  {
    Assign(a, NonBlankStr(v, AUTHOR_GROUP_MSG), (s: string) => a.(group := s))
  }

  /** `Author(name, group)`: the name is checked first. */
  function NewAuthor(name: PyValue, group: PyValue): (r: Result<Author, Exc>)
    ensures r.Success? <==> IsNonBlankStr(name) && IsNonBlankStr(group)
    ensures r.Success? ==> r.value == Author(Strip(name.s), Strip(group.s)) && r.value.Valid()
    ensures !IsNonBlankStr(name) ==> r == Failure(ValueError(AUTHOR_NAME_MSG))
    ensures IsNonBlankStr(name) && !IsNonBlankStr(group) ==> r == Failure(ValueError(AUTHOR_GROUP_MSG))
  {
    var n :- NonBlankStr(name, AUTHOR_NAME_MSG);
    var g :- NonBlankStr(group, AUTHOR_GROUP_MSG);
    Success(Author(n, g))
  }

  // ---------------------------------------------------------------- App

  const APP_NAME_MSG := "App.name must be a non-empty string"
  const APP_VERSION_MSG := "App.version must be a non-empty string"
  const APP_AUTHOR_MSG := "App.author must be an Author"

  /** The value assigned to `App.author`: an `Author` instance or any other Python value. */
  datatype AuthorArg = AnAuthor(author: Author) | NotAnAuthor(other: PyValue)

  /** The author is kept by reference and is not re-validated. */
  datatype App = App(name: string, version: string, author: Author) {
    predicate Valid() {
      NonBlankStripped(name) && NonBlankStripped(version)
    }
  }

  /** `app.name = v` */
  function SetAppName(app: App, v: PyValue): (r: Assignment<App>)
    ensures r.raised.None? <==> IsNonBlankStr(v)
    ensures r.raised.None? ==> r.obj == app.(name := Strip(v.s))
    ensures r.raised.Some? ==> r.obj == app && r.raised == Some(ValueError(APP_NAME_MSG))
    ensures app.Valid() ==> r.obj.Valid()
  {
    Assign(app, NonBlankStr(v, APP_NAME_MSG), (s: string) => app.(name := s))
  }

  /** `app.version = v` */
  function SetAppVersion(app: App, v: PyValue): (r: Assignment<App>)
    ensures r.raised.None? <==> IsNonBlankStr(v)
    ensures r.raised.None? ==> r.obj == app.(version := Strip(v.s))
    ensures r.raised.Some? ==> r.obj == app && r.raised == Some(ValueError(APP_VERSION_MSG))
    ensures app.Valid() ==> r.obj.Valid()
  {
    Assign(app, NonBlankStr(v, APP_VERSION_MSG), (s: string) => app.(version := s))
  }

  /** The `isinstance(v, Author)` check of the `author` setter. */
  function CheckAuthor(v: AuthorArg): (r: Result<Author, Exc>)
    ensures r.Success? <==> v.AnAuthor?
    ensures r.Success? ==> r.value == v.author
    ensures r.Failure? ==> r.error == TypeError(APP_AUTHOR_MSG)
  {
    match v
    case AnAuthor(a) => Success(a)
    case NotAnAuthor(_) => Failure(TypeError(APP_AUTHOR_MSG))
  }

  /** `app.author = v`: any `Author` is stored as given; anything else raises TypeError. */
  function SetAppAuthor(app: App, v: AuthorArg): (r: Assignment<App>)
    ensures r.raised.None? <==> v.AnAuthor?
    ensures r.raised.None? ==> r.obj == app.(author := v.author)
    ensures r.raised.Some? ==> r.obj == app && r.raised == Some(TypeError(APP_AUTHOR_MSG))
    ensures app.Valid() ==> r.obj.Valid()
  {
    Assign(app, CheckAuthor(v), (a: Author) => app.(author := a))
  }

  /** `App(name, version, author)`: checks name, then version, then author. */
  function NewApp(name: PyValue, version: PyValue, author: AuthorArg): (r: Result<App, Exc>)
    ensures r.Success? <==> IsNonBlankStr(name) && IsNonBlankStr(version) && author.AnAuthor?
    ensures r.Success? ==> r.value == App(Strip(name.s), Strip(version.s), author.author) && r.value.Valid()
    ensures !IsNonBlankStr(name) ==> r == Failure(ValueError(APP_NAME_MSG))
    ensures IsNonBlankStr(name) && !IsNonBlankStr(version) ==> r == Failure(ValueError(APP_VERSION_MSG))
    ensures IsNonBlankStr(name) && IsNonBlankStr(version) && author.NotAnAuthor? ==> r == Failure(TypeError(APP_AUTHOR_MSG))
  {
    var n :- NonBlankStr(name, APP_NAME_MSG);
    var ver :- NonBlankStr(version, APP_VERSION_MSG);
    var a :- CheckAuthor(author);
    Success(App(n, ver, a))
  }

  // ---------------------------------------------------------------- User

  const USER_ID_MSG := "User.id must be a positive int"
  const USER_NAME_MSG := "User.name must be a non-empty string"

  datatype User = User(id: int, name: string) {
    predicate Valid() {
      id > 0 && NonBlankStripped(name)
    }
  }

  /** `user.id = v` */
  function SetUserId(u: User, v: PyValue): (r: Assignment<User>)
    ensures r.raised.None? <==> IsPositiveInt(v)
    ensures r.raised.None? ==> r.obj == u.(id := IntOf(v))
    ensures r.raised.Some? ==> r.obj == u && r.raised == Some(ValueError(USER_ID_MSG))
    ensures u.Valid() ==> r.obj.Valid()
  {
    Assign(u, PositiveInt(v, USER_ID_MSG), (i: int) => u.(id := i))
  }

  /** `user.name = v` */
  function SetUserName(u: User, v: PyValue): (r: Assignment<User>)
    ensures r.raised.None? <==> IsNonBlankStr(v)
    ensures r.raised.None? ==> r.obj == u.(name := Strip(v.s))
    ensures r.raised.Some? ==> r.obj == u && r.raised == Some(ValueError(USER_NAME_MSG))
    ensures u.Valid() ==> r.obj.Valid()
  {
    Assign(u, NonBlankStr(v, USER_NAME_MSG), (s: string) => u.(name := s))
  }

  /** `User(id, name)`: checks the id, then the name. */
  function NewUser(id: PyValue, name: PyValue): (r: Result<User, Exc>)
    ensures r.Success? <==> IsPositiveInt(id) && IsNonBlankStr(name)
    ensures r.Success? ==> r.value == User(IntOf(id), Strip(name.s)) && r.value.Valid()
    ensures !IsPositiveInt(id) ==> r == Failure(ValueError(USER_ID_MSG))
    ensures IsPositiveInt(id) && !IsNonBlankStr(name) ==> r == Failure(ValueError(USER_NAME_MSG))
  {
    var i :- PositiveInt(id, USER_ID_MSG);
    var n :- NonBlankStr(name, USER_NAME_MSG);
    Success(User(i, n))
  }

  // ---------------------------------------------------------------- Currency

  const CURRENCY_ID_MSG := "Currency.id must be a positive int"
  const CURRENCY_NUM_CODE_MSG := "Currency.num_code must be a non-empty string"
  const CURRENCY_CHAR_CODE_MSG := "Currency.char_code must be a 3-letter code"
  const CURRENCY_NAME_MSG := "Currency.name must be a non-empty string"
  const CURRENCY_VALUE_TYPE_MSG := "Currency.value must be int/float"
  const CURRENCY_VALUE_MSG := "Currency.value must be > 0"
  const CURRENCY_NOMINAL_MSG := "Currency.nominal must be a positive int"

  /** Three characters, no surrounding whitespace, no lower-case ASCII letter. Letters are not required. */
  predicate IsCharCode(s: string) {
    |s| == 3 && IsStripped(s) && Upper(s) == s
  }

  datatype Currency = Currency(id: int, numCode: string, charCode: string, name: string, value: real, nominal: int) {
    predicate Valid() {
      && id > 0
      && NonBlankStripped(numCode)
      && IsCharCode(charCode)
      && NonBlankStripped(name)
      && value > 0.0
      && nominal > 0
    }
  }

  /** What the `char_code` setter accepts: a string of length 3 once stripped. */
  predicate IsCharCodeArg(v: PyValue) {
    v.PyStr? && |Strip(v.s)| == 3
  }

  /** What the `value` setter accepts: a positive `int` or `float` that is not a `bool`. */
  predicate IsRateArg(v: PyValue) {
    IsRealNumber(v) && NumberOf(v) > 0.0
  }

  /** The checks of the `char_code` setter; on success the stripped, upper-cased code. */
  function CharCode(v: PyValue): (r: Result<string, Exc>)
    ensures r.Success? <==> IsCharCodeArg(v)
    ensures r.Success? ==> r.value == Upper(Strip(v.s)) && IsCharCode(r.value)
    ensures r.Failure? ==> r.error == ValueError(CURRENCY_CHAR_CODE_MSG)
  {
    if !v.PyStr? || Strip(v.s) == [] || |Strip(v.s)| != 3 then
      Failure(ValueError(CURRENCY_CHAR_CODE_MSG))
    else
      var s := Strip(v.s);
      UpperKeepsStripped(s);
      UpperProperties(s);
      Success(Upper(s))
  }

  /**
   The checks of the `value` setter: a bool or a non-number raises TypeError,
   then a number not above zero raises ValueError; on success `float(v)`.
   */
  function Rate(v: PyValue): (r: Result<real, Exc>)
    ensures r.Success? <==> IsRateArg(v)
    ensures r.Success? ==> r.value == NumberOf(v) && r.value > 0.0
    ensures !IsRealNumber(v) ==> r == Failure(TypeError(CURRENCY_VALUE_TYPE_MSG))
    ensures IsRealNumber(v) && NumberOf(v) <= 0.0 ==> r == Failure(ValueError(CURRENCY_VALUE_MSG))
  {
    if v.PyBool? || !IsRealNumber(v) then Failure(TypeError(CURRENCY_VALUE_TYPE_MSG))
    else if NumberOf(v) <= 0.0 then Failure(ValueError(CURRENCY_VALUE_MSG))
    else Success(NumberOf(v))
  }

  /** `currency.id = v` */
  function SetCurrencyId(c: Currency, v: PyValue): (r: Assignment<Currency>)
    ensures r.raised.None? <==> IsPositiveInt(v)
    ensures r.raised.None? ==> r.obj == c.(id := IntOf(v))
    ensures r.raised.Some? ==> r.obj == c && r.raised == Some(ValueError(CURRENCY_ID_MSG))
    ensures c.Valid() ==> r.obj.Valid()
  {
    Assign(c, PositiveInt(v, CURRENCY_ID_MSG), (i: int) => c.(id := i))
  }

  /** `currency.num_code = v` */
  function SetCurrencyNumCode(c: Currency, v: PyValue): (r: Assignment<Currency>)
    ensures r.raised.None? <==> IsNonBlankStr(v)
    ensures r.raised.None? ==> r.obj == c.(numCode := Strip(v.s))
    ensures r.raised.Some? ==> r.obj == c && r.raised == Some(ValueError(CURRENCY_NUM_CODE_MSG))
    ensures c.Valid() ==> r.obj.Valid()
  {
    Assign(c, NonBlankStr(v, CURRENCY_NUM_CODE_MSG), (s: string) => c.(numCode := s))
  }

  /** `currency.char_code = v` */
  function SetCurrencyCharCode(c: Currency, v: PyValue): (r: Assignment<Currency>)
    ensures r.raised.None? <==> IsCharCodeArg(v)
    ensures r.raised.None? ==> r.obj == c.(charCode := Upper(Strip(v.s)))
    ensures r.raised.Some? ==> r.obj == c && r.raised == Some(ValueError(CURRENCY_CHAR_CODE_MSG))
    ensures c.Valid() ==> r.obj.Valid()
  {
    Assign(c, CharCode(v), (s: string) => c.(charCode := s))
  }

  /** `currency.name = v` */
  function SetCurrencyName(c: Currency, v: PyValue): (r: Assignment<Currency>)
    ensures r.raised.None? <==> IsNonBlankStr(v)
    ensures r.raised.None? ==> r.obj == c.(name := Strip(v.s))
    ensures r.raised.Some? ==> r.obj == c && r.raised == Some(ValueError(CURRENCY_NAME_MSG))
    ensures c.Valid() ==> r.obj.Valid()
  {
    Assign(c, NonBlankStr(v, CURRENCY_NAME_MSG), (s: string) => c.(name := s))
  }

  /** `currency.value = v` */
  function SetCurrencyValue(c: Currency, v: PyValue): (r: Assignment<Currency>)
    ensures r.raised.None? <==> IsRateArg(v)
    ensures r.raised.None? ==> r.obj == c.(value := NumberOf(v))
    ensures !IsRealNumber(v) ==> r == Assignment(c, Some(TypeError(CURRENCY_VALUE_TYPE_MSG)))
    ensures IsRealNumber(v) && NumberOf(v) <= 0.0 ==> r == Assignment(c, Some(ValueError(CURRENCY_VALUE_MSG)))
    ensures c.Valid() ==> r.obj.Valid()
  {
    Assign(c, Rate(v), (x: real) => c.(value := x))
  }

  /** `currency.nominal = v` */
  function SetCurrencyNominal(c: Currency, v: PyValue): (r: Assignment<Currency>)
    ensures r.raised.None? <==> IsPositiveInt(v)
    ensures r.raised.None? ==> r.obj == c.(nominal := IntOf(v))
    ensures r.raised.Some? ==> r.obj == c && r.raised == Some(ValueError(CURRENCY_NOMINAL_MSG))
    ensures c.Valid() ==> r.obj.Valid()
  {
    Assign(c, PositiveInt(v, CURRENCY_NOMINAL_MSG), (i: int) => c.(nominal := i))
  }

  /**
   `Currency(id, num_code, char_code, name, value, nominal)`: the fields are
   checked in that order and the first failing check decides the exception.
   */
  function NewCurrency(id: PyValue, numCode: PyValue, charCode: PyValue, name: PyValue, value: PyValue, nominal: PyValue)
    : (r: Result<Currency, Exc>)
    ensures r.Success? <==>
              IsPositiveInt(id) && IsNonBlankStr(numCode) && IsCharCodeArg(charCode)
              && IsNonBlankStr(name) && IsRateArg(value) && IsPositiveInt(nominal)
    ensures r.Success? ==>
              && r.value == Currency(IntOf(id), Strip(numCode.s), Upper(Strip(charCode.s)), Strip(name.s), NumberOf(value), IntOf(nominal))
              && r.value.Valid()
    ensures !IsPositiveInt(id) ==> r == Failure(ValueError(CURRENCY_ID_MSG))
    ensures IsPositiveInt(id) && !IsNonBlankStr(numCode) ==> r == Failure(ValueError(CURRENCY_NUM_CODE_MSG))
    ensures IsPositiveInt(id) && IsNonBlankStr(numCode) && !IsCharCodeArg(charCode)
            ==> r == Failure(ValueError(CURRENCY_CHAR_CODE_MSG))
    ensures IsPositiveInt(id) && IsNonBlankStr(numCode) && IsCharCodeArg(charCode) && !IsNonBlankStr(name)
            ==> r == Failure(ValueError(CURRENCY_NAME_MSG))
    ensures (IsPositiveInt(id) && IsNonBlankStr(numCode) && IsCharCodeArg(charCode) && IsNonBlankStr(name)
             && !IsRateArg(value)) ==> r == Rate(value).PropagateFailure()
    ensures (IsPositiveInt(id) && IsNonBlankStr(numCode) && IsCharCodeArg(charCode) && IsNonBlankStr(name)
             && IsRateArg(value) && !IsPositiveInt(nominal)) ==> r == Failure(ValueError(CURRENCY_NOMINAL_MSG))
  {
    var i :- PositiveInt(id, CURRENCY_ID_MSG);
    var nc :- NonBlankStr(numCode, CURRENCY_NUM_CODE_MSG);
    var cc :- CharCode(charCode);
    var n :- NonBlankStr(name, CURRENCY_NAME_MSG);
    var v :- Rate(value);
    var nom :- PositiveInt(nominal, CURRENCY_NOMINAL_MSG);
    Success(Currency(i, nc, cc, n, v, nom))
  }

  // ---------------------------------------------------------------- UserCurrency

  const USER_CURRENCY_ID_MSG := "UserCurrency.id must be a positive int"
  const USER_CURRENCY_USER_ID_MSG := "UserCurrency.user_id must be a positive int"
  const USER_CURRENCY_CURRENCY_ID_MSG := "UserCurrency.currency_id must be a positive int"

  /** One subscription: user `userId` follows the currency with id `currencyId`. */
  datatype UserCurrency = UserCurrency(id: int, userId: int, currencyId: int) {
    predicate Valid() {
      id > 0 && userId > 0 && currencyId > 0
    }
  }

  /** `uc.id = v` */
  function SetUserCurrencyId(uc: UserCurrency, v: PyValue): (r: Assignment<UserCurrency>)
    ensures r.raised.None? <==> IsPositiveInt(v)
    ensures r.raised.None? ==> r.obj == uc.(id := IntOf(v))
    ensures r.raised.Some? ==> r.obj == uc && r.raised == Some(ValueError(USER_CURRENCY_ID_MSG))
    ensures uc.Valid() ==> r.obj.Valid()
  {
    Assign(uc, PositiveInt(v, USER_CURRENCY_ID_MSG), (i: int) => uc.(id := i))
  }

  /** `uc.user_id = v` */
  function SetUserCurrencyUserId(uc: UserCurrency, v: PyValue): (r: Assignment<UserCurrency>)
    ensures r.raised.None? <==> IsPositiveInt(v)
    ensures r.raised.None? ==> r.obj == uc.(userId := IntOf(v))
    ensures r.raised.Some? ==> r.obj == uc && r.raised == Some(ValueError(USER_CURRENCY_USER_ID_MSG))
    ensures uc.Valid() ==> r.obj.Valid()
  {
    Assign(uc, PositiveInt(v, USER_CURRENCY_USER_ID_MSG), (i: int) => uc.(userId := i))
  }

  /** `uc.currency_id = v` */
  function SetUserCurrencyCurrencyId(uc: UserCurrency, v: PyValue): (r: Assignment<UserCurrency>)
    ensures r.raised.None? <==> IsPositiveInt(v)
    ensures r.raised.None? ==> r.obj == uc.(currencyId := IntOf(v))
    ensures r.raised.Some? ==> r.obj == uc && r.raised == Some(ValueError(USER_CURRENCY_CURRENCY_ID_MSG))
    ensures uc.Valid() ==> r.obj.Valid()
  {
    Assign(uc, PositiveInt(v, USER_CURRENCY_CURRENCY_ID_MSG), (i: int) => uc.(currencyId := i))
  }

  /** `UserCurrency(id, user_id, currency_id)`: checked in that order; valid values are stored unchanged. */
  function NewUserCurrency(id: PyValue, userId: PyValue, currencyId: PyValue): (r: Result<UserCurrency, Exc>)
    ensures r.Success? <==> IsPositiveInt(id) && IsPositiveInt(userId) && IsPositiveInt(currencyId)
    ensures r.Success? ==> r.value == UserCurrency(IntOf(id), IntOf(userId), IntOf(currencyId)) && r.value.Valid()
    ensures !IsPositiveInt(id) ==> r == Failure(ValueError(USER_CURRENCY_ID_MSG))
    ensures IsPositiveInt(id) && !IsPositiveInt(userId) ==> r == Failure(ValueError(USER_CURRENCY_USER_ID_MSG))
    ensures IsPositiveInt(id) && IsPositiveInt(userId) && !IsPositiveInt(currencyId)
            ==> r == Failure(ValueError(USER_CURRENCY_CURRENCY_ID_MSG))
  {
    var i :- PositiveInt(id, USER_CURRENCY_ID_MSG);
    var u :- PositiveInt(userId, USER_CURRENCY_USER_ID_MSG);
    var c :- PositiveInt(currencyId, USER_CURRENCY_CURRENCY_ID_MSG);
    Success(UserCurrency(i, u, c))
  }

  // ---------------------------------------------------------------- cases from task_8/tests/test_models.py

  lemma AuthorTestCases()
    ensures NewAuthor(PyStr(""), PyStr("X")) == Failure(ValueError(AUTHOR_NAME_MSG))
    ensures NewAuthor(PyStr("Kirill"), PyStr("M321")).Success?
    ensures NewAuthor(PyStr("Kirill"), PyStr("M321")).value.name == "Kirill"
  {
    assert !IsNonBlankStr(PyStr(""));
    var kirill, group := "Kirill", "M321";
    assert !IsSpace(kirill[0]) && !IsSpace(group[0]);
    assert IsNonBlankStr(PyStr(kirill)) && IsNonBlankStr(PyStr(group));
    StripStripped(kirill);
  }

  lemma AppTestCase()
    ensures NewApp(PyStr("X"), PyStr("1.0"), AnAuthor(Author("Kirill", "M321"))).Success?
    ensures NewApp(PyStr("X"), PyStr("1.0"), AnAuthor(Author("Kirill", "M321"))).value.author.name == "Kirill"
  {
    var x, version := "X", "1.0";
    assert !IsSpace(x[0]) && !IsSpace(version[0]);
    assert IsNonBlankStr(PyStr(x)) && IsNonBlankStr(PyStr(version));
  }

  lemma UserTestCases()
    ensures NewUser(PyInt(0), PyStr("A")) == Failure(ValueError(USER_ID_MSG))
    ensures NewUser(PyInt(1), PyStr("")) == Failure(ValueError(USER_NAME_MSG))
    ensures NewUser(PyInt(1), PyStr("Alice")).Success?
    ensures NewUser(PyInt(1), PyStr("Alice")).value.id == 1
  {
    assert !IsSpace("Alice"[0]);
  }

  lemma CurrencyBadCodeCase()
    ensures NewCurrency(PyInt(1), PyStr("840"), PyStr("US"), PyStr("Dollar"), PyFloat(1.0), PyInt(1))
            == Failure(ValueError(CURRENCY_CHAR_CODE_MSG))
  {
    var num, name := "840", "Dollar";
    assert !IsSpace(num[0]) && !IsSpace(name[0]);
    assert IsNonBlankStr(PyStr(num));
    StripStripped("US");
    assert !IsCharCodeArg(PyStr("US"));
  }

  lemma CurrencyBadValueCase()
    ensures NewCurrency(PyInt(1), PyStr("840"), PyStr("USD"), PyStr("Dollar"), PyStr("x"), PyInt(1))
            == Failure(TypeError(CURRENCY_VALUE_TYPE_MSG))
  {
    var num, name := "840", "Dollar";
    assert !IsSpace(num[0]) && !IsSpace(name[0]);
    assert IsNonBlankStr(PyStr(num)) && IsNonBlankStr(PyStr(name));
    StripStripped("USD");
    assert IsCharCodeArg(PyStr("USD"));
    assert !IsRealNumber(PyStr("x"));
  }

  lemma CurrencyTestCases()
    ensures NewCurrency(PyInt(1), PyStr("840"), PyStr("USD"), PyStr("Dollar"), PyFloat(93.25), PyInt(1)).Success?
    ensures NewCurrency(PyInt(1), PyStr("840"), PyStr("USD"), PyStr("Dollar"), PyFloat(93.25), PyInt(1)).value.value
            == 93.25
  {
    var num, name := "840", "Dollar";
    assert !IsSpace(num[0]) && !IsSpace(name[0]);
    assert IsNonBlankStr(PyStr(num)) && IsNonBlankStr(PyStr(name));
    StripStripped("USD");
    assert IsCharCodeArg(PyStr("USD"));
    assert IsRateArg(PyFloat(93.25));
  }

  lemma UserCurrencyTestCases()
    ensures NewUserCurrency(PyInt(1), PyInt(0), PyInt(1)) == Failure(ValueError(USER_CURRENCY_USER_ID_MSG))
    ensures NewUserCurrency(PyInt(1), PyInt(1), PyInt(2)).Success?
    ensures NewUserCurrency(PyInt(1), PyInt(1), PyInt(2)).value.currencyId == 2
  {
  }
}
