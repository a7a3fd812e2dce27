/**
 The in-memory application of task_8/myapp/myapp.py. The module-level lists
 `USERS`, `CURRENCIES`, `USER_CURRENCIES` and the `HISTORY` object become one
 immutable `State`; every mutating helper returns the next state. The rate
 fetch behind `update_rates` is the parameter `fetch` (it receives the list of
 char codes, as `get_currencies(codes)` does), and the clock is `now`.
 */
module MyApp {
  import opened Wrappers
  import opened Python
  import opened Seqs
  import opened Models
  import History
  import Currencies

  datatype State = State(
    users: seq<User>,
    currencies: seq<Currency>,
    subscriptions: seq<UserCurrency>,
    history: History.RateHistory)

  // ---------------------------------------------------------------- invariants

  /** No two subscription records share an id. */
  ghost predicate UniqueIds(ucs: seq<UserCurrency>) {
    forall i, j :: 0 <= i < j < |ucs| ==> ucs[i].id != ucs[j].id
  }

  /** At most one record per (user, currency) pair: `subscribe` never duplicates one. */
  ghost predicate UniquePairs(ucs: seq<UserCurrency>) {
    forall i, j :: 0 <= i < j < |ucs| ==>
      (ucs[i].userId, ucs[i].currencyId) != (ucs[j].userId, ucs[j].currencyId)
  }

  /** What the record setters and the helpers below keep true of the globals. */
  ghost predicate Valid(s: State) {
    && (forall k :: 0 <= k < |s.users| ==> s.users[k].Valid())
    && (forall k :: 0 <= k < |s.currencies| ==> s.currencies[k].Valid())
    && (forall k :: 0 <= k < |s.subscriptions| ==> s.subscriptions[k].Valid())
    && UniqueIds(s.subscriptions)
    && UniquePairs(s.subscriptions)
  }

  const SEEDED_USERS: seq<User> := [User(1, "Андрей"), User(2, "Акакий")]

  const SEEDED_CURRENCIES: seq<Currency> := [
    Currency(1, "840", "USD", "US Dollar", 1.0, 1),
    Currency(2, "978", "EUR", "Euro", 1.0, 1),
    Currency(3, "826", "GBP", "British Pound", 1.0, 1)]

  const SEEDED_SUBSCRIPTIONS: seq<UserCurrency> := [UserCurrency(1, 1, 1), UserCurrency(2, 1, 2), UserCurrency(3, 2, 1)]

  /** A string that neither starts nor ends with whitespace and is not empty. */
  lemma LiteralStripped(s: string)
    requires s != [] && !IsSpace(s[0]) && !IsSpace(s[|s| - 1])
    ensures NonBlankStripped(s)
  {
  }

  /** A currency literal whose code is three upper-case ASCII letters is valid. */
  lemma CurrencyLiteralValid(c: Currency)
    requires c.id > 0 && c.value > 0.0 && c.nominal > 0
    requires |c.charCode| == 3 && forall k :: 0 <= k < 3 ==> 'A' <= c.charCode[k] <= 'Z'
    requires NonBlankStripped(c.numCode) && NonBlankStripped(c.name)
    ensures c.Valid()
  {
    assert Upper(c.charCode) == c.charCode;
  }

  lemma SeededRecordsValid()
    ensures forall k :: 0 <= k < |SEEDED_USERS| ==> SEEDED_USERS[k].Valid()
    ensures forall k :: 0 <= k < |SEEDED_CURRENCIES| ==> SEEDED_CURRENCIES[k].Valid()
  {
    var andrey, akakiy := "Андрей", "Акакий";
    LiteralStripped(andrey);
    LiteralStripped(akakiy);
    var usd, eur, gbp := "USD", "EUR", "GBP";
    var n1, n2, n3 := "840", "978", "826";
    var d1, d2, d3 := "US Dollar", "Euro", "British Pound";
    LiteralStripped(n1);
    LiteralStripped(n2);
    LiteralStripped(n3);
    LiteralStripped(d1);
    LiteralStripped(d2);
    LiteralStripped(d3);
    CurrencyLiteralValid(Currency(1, n1, usd, d1, 1.0, 1));
    CurrencyLiteralValid(Currency(2, n2, eur, d2, 1.0, 1));
    CurrencyLiteralValid(Currency(3, n3, gbp, d3, 1.0, 1));
  }

  /** The seeded globals: two users, three currencies at 1.0, three subscriptions, an empty history. */
  function Initial(): (s: State)
    ensures Valid(s)
    ensures |s.users| == 2 && |s.currencies| == 3 && |s.subscriptions| == 3
    ensures s.history == History.Empty()
  {
    SeededRecordsValid();
    State(SEEDED_USERS, SEEDED_CURRENCIES, SEEDED_SUBSCRIPTIONS, History.Empty())
  }

  // ---------------------------------------------------------------- lookups

  /** `find_user(user_id)`: the first user with that id. */
  function FindUser(s: State, id: int): (r: Option<User>)
    ensures r.None? <==> forall k :: 0 <= k < |s.users| ==> s.users[k].id != id
    ensures r.Some? ==> r.value.id == id
    ensures r.Some? ==> exists k :: 0 <= k < |s.users| && s.users[k] == r.value
                                    && forall j :: 0 <= j < k ==> s.users[j].id != id
  {
    First(s.users, (u: User) => u.id == id)
  }

  /** `find_currency_by_id(currency_id)`: the first currency with that id. */
  function FindCurrencyById(s: State, id: int): (r: Option<Currency>)
    ensures r.None? <==> forall k :: 0 <= k < |s.currencies| ==> s.currencies[k].id != id
    ensures r.Some? ==> r.value.id == id
    ensures r.Some? ==> exists k :: 0 <= k < |s.currencies| && s.currencies[k] == r.value
                                    && forall j :: 0 <= j < k ==> s.currencies[j].id != id
  {
    First(s.currencies, (c: Currency) => c.id == id)
  }

  /** `[c.char_code for c in CURRENCIES]` */
  function CharCodes(cs: seq<Currency>): (r: seq<string>)
    ensures |r| == |cs| && forall k :: 0 <= k < |cs| ==> r[k] == cs[k].charCode
  {
    seq(|cs|, k requires 0 <= k < |cs| => cs[k].charCode)
  }

  /** Position of the first currency whose char code is `code`. */
  function CodeIndex(cs: seq<Currency>, code: string): Option<nat> {
    FirstIndex(CharCodes(cs), (c: string) => c == code)
  }

  /** Some currency has char code `code`. */
  predicate Known(cs: seq<Currency>, code: string) {
    CodeIndex(cs, code).Some?
  }

  /** `find_currency_by_code(code)`: the first currency with that char code. */
  function FindCurrencyByCode(s: State, code: string): (r: Option<Currency>)
    ensures r.None? <==> forall k :: 0 <= k < |s.currencies| ==> s.currencies[k].charCode != code
    ensures r.Some? ==> r.value.charCode == code
    ensures r.Some? ==> exists k :: 0 <= k < |s.currencies| && s.currencies[k] == r.value
                                    && forall j :: 0 <= j < k ==> s.currencies[j].charCode != code
  {
    var codes := CharCodes(s.currencies);
    match CodeIndex(s.currencies, code)
    case None =>
      assert forall k :: 0 <= k < |s.currencies| ==> codes[k] != code;
      None
    case Some(i) =>
      assert forall j :: 0 <= j < i ==> codes[j] != code;
      Some(s.currencies[i])
  }

  // ---------------------------------------------------------------- subscriptions

  /** User `uid` has a record for the currency with id `cid`. */
  predicate HasPair(ucs: seq<UserCurrency>, uid: int, cid: int) {
    exists k :: 0 <= k < |ucs| && ucs[k].userId == uid && ucs[k].currencyId == cid
  }

  lemma HasPairCons(ucs: seq<UserCurrency>, uid: int, cid: int)
    requires ucs != []
    ensures HasPair(ucs, uid, cid) <==>
              (ucs[0].userId == uid && ucs[0].currencyId == cid) || HasPair(ucs[1..], uid, cid)
  {
    if HasPair(ucs, uid, cid) {
      var k :| 0 <= k < |ucs| && ucs[k].userId == uid && ucs[k].currencyId == cid;
      if k > 0 {
        assert ucs[1..][k - 1] == ucs[k];
      }
    }
    if HasPair(ucs[1..], uid, cid) {
      var k :| 0 <= k < |ucs[1..]| && ucs[1..][k].userId == uid && ucs[1..][k].currencyId == cid;
      assert ucs[k + 1] == ucs[1..][k];
    }
  }

  /** `[uc.currency_id for uc in USER_CURRENCIES if uc.user_id == user_id]` */
  function CurrencyIdsOf(ucs: seq<UserCurrency>, uid: int): (r: seq<int>)
    ensures forall cid :: cid in r <==> HasPair(ucs, uid, cid)
  {
    if ucs == [] then []
    else
      var rest := CurrencyIdsOf(ucs[1..], uid);
      var here := if ucs[0].userId == uid then [ucs[0].currencyId] else [];
      assert forall cid :: HasPair(ucs, uid, cid) <==> cid in here || HasPair(ucs[1..], uid, cid) by {
        forall cid ensures HasPair(ucs, uid, cid) <==> cid in here || HasPair(ucs[1..], uid, cid) {
          HasPairCons(ucs, uid, cid);
        }
      }
      here + rest
  }

  /**
   `user_subscriptions(user_id)`: the currencies, in catalogue order, that the
   user has a record for. A currency appears as often as it does in the
   catalogue however many records point at it, and a record whose currency id
   is not in the catalogue contributes nothing.
   */
  function UserSubscriptions(s: State, uid: int): (r: seq<Currency>)
    ensures Subseq(r, s.currencies)
    ensures forall c :: multiset(r)[c] == if HasPair(s.subscriptions, uid, c.id) then multiset(s.currencies)[c] else 0
    ensures forall c :: c in r <==> c in s.currencies && HasPair(s.subscriptions, uid, c.id)
  {
    var ids := CurrencyIdsOf(s.subscriptions, uid);
    Filter(s.currencies, (c: Currency) => c.id in ids)
  }

  /** `max([uc.id for uc in USER_CURRENCIES])` */
  function MaxId(ucs: seq<UserCurrency>): (m: int)
    requires ucs != []
    ensures forall k :: 0 <= k < |ucs| ==> ucs[k].id <= m
    ensures exists k :: 0 <= k < |ucs| && ucs[k].id == m
  {
    if |ucs| == 1 then ucs[0].id
    else
      var m := MaxId(ucs[1..]);
      assert forall k :: 1 <= k < |ucs| ==> ucs[k].id <= m by {
        forall k | 1 <= k < |ucs| ensures ucs[k].id <= m {
          assert ucs[1..][k - 1] == ucs[k];
        }
      }
      var w :| 0 <= w < |ucs[1..]| && ucs[1..][w].id == m;
      assert ucs[w + 1].id == m;
      if ucs[0].id > m then ucs[0].id else m
  }

  /** `next_id`: one more than the largest id, or 1 when there is no record. */
  function NextId(ucs: seq<UserCurrency>): (r: int)
    ensures ucs == [] ==> r == 1
    ensures forall k :: 0 <= k < |ucs| ==> ucs[k].id < r
    ensures ucs != [] ==> exists k :: 0 <= k < |ucs| && ucs[k].id == r - 1
  {
    if ucs == [] then 1 else MaxId(ucs) + 1
  }

  /**
   `subscribe(user_id, currency_id)`: nothing happens when the user already
   has a record for the currency; otherwise a record with a fresh id (larger
   than every existing one) is appended. Building that record runs the
   `UserCurrency` checks, which raise ValueError for an id that is not
   positive; the list is then left as it was.
   */
  function Subscribe(s: State, uid: int, cid: int): (r: Result<State, Exc>)
    ensures HasPair(s.subscriptions, uid, cid) ==> r == Success(s)
    ensures r.Success? <==> HasPair(s.subscriptions, uid, cid) || (NextId(s.subscriptions) > 0 && uid > 0 && cid > 0)
    ensures r.Success? ==> r.value == s.(subscriptions := r.value.subscriptions)
    ensures r.Success? ==> HasPair(r.value.subscriptions, uid, cid)
    ensures r.Success? && !HasPair(s.subscriptions, uid, cid) ==>
              && r.value.subscriptions == s.subscriptions + [UserCurrency(NextId(s.subscriptions), uid, cid)]
              && forall k :: 0 <= k < |s.subscriptions| ==> s.subscriptions[k].id < NextId(s.subscriptions)
    ensures !HasPair(s.subscriptions, uid, cid) && NextId(s.subscriptions) <= 0
            ==> r == Failure(ValueError(USER_CURRENCY_ID_MSG))
    ensures !HasPair(s.subscriptions, uid, cid) && NextId(s.subscriptions) > 0 && uid <= 0
            ==> r == Failure(ValueError(USER_CURRENCY_USER_ID_MSG))
    ensures !HasPair(s.subscriptions, uid, cid) && NextId(s.subscriptions) > 0 && uid > 0 && cid <= 0
            ==> r == Failure(ValueError(USER_CURRENCY_CURRENCY_ID_MSG))
  {
    var next := NextId(s.subscriptions);
    if HasPair(s.subscriptions, uid, cid) then Success(s)
    else
      var uc :- NewUserCurrency(PyInt(next), PyInt(uid), PyInt(cid));
      var ucs := s.subscriptions + [uc];
      assert ucs[|s.subscriptions|] == uc;
      Success(s.(subscriptions := ucs))
  }

  /** Subscribing a second time to the same pair changes nothing. */
  lemma SubscribeIdempotent(s: State, uid: int, cid: int)
    requires Subscribe(s, uid, cid).Success?
    ensures Subscribe(Subscribe(s, uid, cid).value, uid, cid) == Subscribe(s, uid, cid)
  {
  }

  /** `subscribe` keeps the record ids distinct and the pairs distinct, and stores only valid records. */
  lemma SubscribeKeepsValid(s: State, uid: int, cid: int)
    requires Valid(s)
    requires Subscribe(s, uid, cid).Success?
    ensures Valid(Subscribe(s, uid, cid).value)
  {
    if !HasPair(s.subscriptions, uid, cid) {
      var ucs := Subscribe(s, uid, cid).value.subscriptions;
      var n := |s.subscriptions|;
      forall i, j | 0 <= i < j < |ucs|
        ensures ucs[i].id != ucs[j].id
        ensures (ucs[i].userId, ucs[i].currencyId) != (ucs[j].userId, ucs[j].currencyId)
      {
        if j == n {
          assert ucs[i] == s.subscriptions[i];
        }
      }
    }
  }

  /** Record ids stay unique whatever else holds: the new id exceeds every existing one. */
  lemma SubscribeKeepsUniqueIds(s: State, uid: int, cid: int)
    requires UniqueIds(s.subscriptions)
    requires Subscribe(s, uid, cid).Success?
    ensures UniqueIds(Subscribe(s, uid, cid).value.subscriptions)
  {
    if !HasPair(s.subscriptions, uid, cid) {
      var ucs := Subscribe(s, uid, cid).value.subscriptions;
      var n := |s.subscriptions|;
      forall i, j | 0 <= i < j < |ucs|
        ensures ucs[i].id != ucs[j].id
      {
        if j == n {
          assert ucs[i] == s.subscriptions[i];
        }
      }
    }
  }

  /** For a valid state, the record built by `subscribe` always passes its checks. */
  lemma SubscribeNeverRaisesOnValid(s: State, uid: int, cid: int)
    requires Valid(s)
    requires uid > 0 && cid > 0
    ensures Subscribe(s, uid, cid).Success?
  {
    if s.subscriptions != [] {
      assert s.subscriptions[0].Valid();
    }
  }

  /** The filter `unsubscribe` applies: drop the records of this pair. */
  predicate Keeps(uc: UserCurrency, uid: int, cid: int) {
    !(uc.userId == uid && uc.currencyId == cid)
  }

  /**
   `unsubscribe(user_id, currency_id)`: removes every record of the pair and
   keeps the others in order. No existence check is made.
   */
  function Unsubscribe(s: State, uid: int, cid: int): (r: State)
    ensures r == s.(subscriptions := r.subscriptions)
    ensures Subseq(r.subscriptions, s.subscriptions)
    ensures forall uc :: multiset(r.subscriptions)[uc]
                         == if Keeps(uc, uid, cid) then multiset(s.subscriptions)[uc] else 0
    ensures !HasPair(r.subscriptions, uid, cid)
  {
    var ucs := Filter(s.subscriptions, (uc: UserCurrency) => Keeps(uc, uid, cid));
    assert forall k :: 0 <= k < |ucs| ==> ucs[k] in ucs;
    s.(subscriptions := ucs)
  }

  /** Unsubscribing from a pair the user has no record for leaves the state as it was. */
  lemma UnsubscribeAbsent(s: State, uid: int, cid: int)
    requires !HasPair(s.subscriptions, uid, cid)
    ensures Unsubscribe(s, uid, cid) == s
  {
    FilterKeepsAll(s.subscriptions, (uc: UserCurrency) => Keeps(uc, uid, cid));
  }

  /** `unsubscribe` undoes `subscribe`: after both, the state is as if only `unsubscribe` had run. */
  lemma UnsubscribeAfterSubscribe(s: State, uid: int, cid: int)
    requires Subscribe(s, uid, cid).Success?
    ensures Unsubscribe(Subscribe(s, uid, cid).value, uid, cid) == Unsubscribe(s, uid, cid)
  {
    if !HasPair(s.subscriptions, uid, cid) {
      var uc := UserCurrency(NextId(s.subscriptions), uid, cid);
      var keep := (x: UserCurrency) => Keeps(x, uid, cid);
      FilterAppend(s.subscriptions, [uc], keep);
      assert Filter([uc], keep) == [] by {
        assert [uc][1..] == [];
      }
    }
  }

  /** `unsubscribe` keeps every invariant: what remains is a sub-list of valid, distinct records. */
  lemma UnsubscribeKeepsValid(s: State, uid: int, cid: int)
    requires Valid(s)
    ensures Valid(Unsubscribe(s, uid, cid))
  {
    var keep := (uc: UserCurrency) => Keeps(uc, uid, cid);
    var ucs := Unsubscribe(s, uid, cid).subscriptions;
    FilterPairwise(s.subscriptions, keep, (a: UserCurrency, b: UserCurrency) => a.id != b.id);
    FilterPairwise(s.subscriptions, keep,
                   (a: UserCurrency, b: UserCurrency) => (a.userId, a.currencyId) != (b.userId, b.currencyId));
    forall k | 0 <= k < |ucs|
      ensures ucs[k].Valid()
    {
      assert ucs[k] in s.subscriptions;
    }
  }

  // ---------------------------------------------------------------- POST handlers

  /** What a POST handler sends back. */
  datatype Reply = RedirectToUser(userId: int) | NotFound

  /**
   The `/subscribe` branch once the parameters are parsed: a 404 without any
   change unless both the user and the currency exist; otherwise `subscribe`
   and a redirect to the user's page.
   */
  function PostSubscribe(s: State, uid: int, cid: int): (r: Result<(State, Reply), Exc>)
    ensures FindUser(s, uid).None? || FindCurrencyById(s, cid).None? ==> r == Success((s, NotFound))
    ensures FindUser(s, uid).Some? && FindCurrencyById(s, cid).Some? && Subscribe(s, uid, cid).Success? ==>
              r == Success((Subscribe(s, uid, cid).value, RedirectToUser(uid)))
    ensures FindUser(s, uid).Some? && FindCurrencyById(s, cid).Some? && Subscribe(s, uid, cid).Failure? ==>
              r == Failure(Subscribe(s, uid, cid).error)
    ensures r.Success? && r.value.1.RedirectToUser? ==>
              && FindUser(s, uid).Some? && FindCurrencyById(s, cid).Some?
              && Subscribe(s, uid, cid).Success?
              && r.value == (Subscribe(s, uid, cid).value, RedirectToUser(uid))
    ensures r.Failure? ==>
              && FindUser(s, uid).Some? && FindCurrencyById(s, cid).Some?
              && Subscribe(s, uid, cid).Failure? && r.error == Subscribe(s, uid, cid).error
  {
    if FindUser(s, uid).None? || FindCurrencyById(s, cid).None? then Success((s, NotFound))
    else
      var s' :- Subscribe(s, uid, cid);
      Success((s', RedirectToUser(uid)))
  }

  /**
   On a valid state the guarded `/subscribe` never raises: when the user and
   the currency exist the pair is recorded, and the state stays valid.
   */
  lemma PostSubscribeOnValid(s: State, uid: int, cid: int)
    requires Valid(s)
    ensures PostSubscribe(s, uid, cid).Success?
    ensures Valid(PostSubscribe(s, uid, cid).value.0)
    ensures PostSubscribe(s, uid, cid).value.1.RedirectToUser? ==> HasPair(PostSubscribe(s, uid, cid).value.0.subscriptions, uid, cid)
    ensures FindUser(s, uid).Some? && FindCurrencyById(s, cid).Some? ==>
              && PostSubscribe(s, uid, cid).value.1 == RedirectToUser(uid)
              && HasPair(PostSubscribe(s, uid, cid).value.0.subscriptions, uid, cid)
  {
    if FindUser(s, uid).Some? && FindCurrencyById(s, cid).Some? {
      var k :| 0 <= k < |s.users| && s.users[k] == FindUser(s, uid).value;
      assert s.users[k].Valid();
      var m :| 0 <= m < |s.currencies| && s.currencies[m] == FindCurrencyById(s, cid).value;
      assert s.currencies[m].Valid();
      SubscribeNeverRaisesOnValid(s, uid, cid);
      SubscribeKeepsValid(s, uid, cid);
    }
  }

  /**
   The `/unsubscribe` branch once the parameters are parsed: no existence
   check; `unsubscribe` and a redirect, so an unknown pair only redirects.
   */
  function PostUnsubscribe(s: State, uid: int, cid: int): (r: (State, Reply))
    ensures r == (Unsubscribe(s, uid, cid), RedirectToUser(uid))
    ensures r.0 == s.(subscriptions := r.0.subscriptions) && !HasPair(r.0.subscriptions, uid, cid)
    ensures !HasPair(s.subscriptions, uid, cid) ==> r.0 == s
  {
    var s' := Unsubscribe(s, uid, cid);
    assert !HasPair(s.subscriptions, uid, cid) ==> s' == s by {
      if !HasPair(s.subscriptions, uid, cid) {
        UnsubscribeAbsent(s, uid, cid);
      }
    }
    (s', RedirectToUser(uid))
  }

  // ---------------------------------------------------------------- update_rates

  /**
   The loop of `update_rates` over `rates.items()`: a code no currency has is
   skipped; otherwise the first currency with that code gets the value through
   its setter and the point is added to the history. The setter raises
   ValueError for a rate not above zero, which ends the loop with the earlier
   entries already applied.
   */
  function ApplyRates(s: State, rates: Currencies.Rates, now: History.Instant): (r: (State, Option<Exc>))
    ensures r.0.users == s.users && r.0.subscriptions == s.subscriptions
    ensures |r.0.currencies| == |s.currencies|
    ensures forall i :: 0 <= i < |s.currencies| ==> r.0.currencies[i] == s.currencies[i].(value := r.0.currencies[i].value)
    ensures forall i :: 0 <= i < |s.currencies| && s.currencies[i].Valid() ==> r.0.currencies[i].Valid()
    ensures r.1.Some? ==> r.1 == Some(ValueError(CURRENCY_VALUE_MSG))
    decreases |rates|
  {
    if rates == [] then (s, None)
    else
      var (code, value) := rates[0];
      match CodeIndex(s.currencies, code)
      case None => ApplyRates(s, rates[1..], now)
      case Some(i) =>
        var a := SetCurrencyValue(s.currencies[i], PyFloat(value));
        if a.raised.Some? then (s, a.raised)
        else
          var s' := s.(currencies := s.currencies[i := a.obj],
                       history := History.Add(s.history, code, value, None, now));
          ApplyRates(s', rates[1..], now)
  }

  /** One pass of the loop body for a known code whose setter accepts the value. */
  function Write(s: State, i: nat, code: string, value: real, now: History.Instant): (r: State)
    requires i < |s.currencies|
    ensures CharCodes(r.currencies) == CharCodes(s.currencies)
  {
    var cs := s.currencies[i := s.currencies[i].(value := value)];
    assert CharCodes(cs) == CharCodes(s.currencies);
    s.(currencies := cs, history := History.Add(s.history, code, value, None, now))
  }

  /** The loop's first step on a writable known code. */
  lemma ApplyRatesStep(s: State, rates: Currencies.Rates, now: History.Instant)
    requires rates != [] && Known(s.currencies, rates[0].0) && rates[0].1 > 0.0
    ensures ApplyRates(s, rates, now)
            == ApplyRates(Write(s, CodeIndex(s.currencies, rates[0].0).value, rates[0].0, rates[0].1, now), rates[1..], now)
  {
    var code, value := rates[0].0, rates[0].1;
    var i := CodeIndex(s.currencies, code).value;
    var a := SetCurrencyValue(s.currencies[i], PyFloat(value));
    assert IsRateArg(PyFloat(value));
    assert a.raised.None? && a.obj == s.currencies[i].(value := value);
    var s' := s.(currencies := s.currencies[i := a.obj],
                 history := History.Add(s.history, code, value, None, now));
    assert s' == Write(s, i, code, value, now);
    assert ApplyRates(s, rates, now) == ApplyRates(s', rates[1..], now);
  }

  /** Overwriting values keeps the char codes, hence every code lookup. */
  lemma ApplyRatesKeepsCodes(s: State, rates: Currencies.Rates, now: History.Instant)
    ensures CharCodes(ApplyRates(s, rates, now).0.currencies) == CharCodes(s.currencies)
    ensures forall code :: CodeIndex(ApplyRates(s, rates, now).0.currencies, code) == CodeIndex(s.currencies, code)
  {
  }

  /** Every rate the loop would write for a known code is above zero. */
  predicate AllWritable(cs: seq<Currency>, rates: Currencies.Rates) {
    forall k :: 0 <= k < |rates| ==> Known(cs, rates[k].0) ==> rates[k].1 > 0.0
  }

  /** The loop runs to the end exactly when every rate of a known code is above zero. */
  lemma {:induction false} ApplyRatesCompletes(s: State, rates: Currencies.Rates, now: History.Instant)
    ensures ApplyRates(s, rates, now).1.None? <==> AllWritable(s.currencies, rates)
    decreases |rates|
  {
    if rates != [] {
      var (code, value) := rates[0];
      var rest := rates[1..];
      assert AllWritable(s.currencies, rates) <==>
             (Known(s.currencies, code) ==> value > 0.0) && AllWritable(s.currencies, rest) by {
        assert forall k :: 0 <= k < |rest| ==> rest[k] == rates[k + 1];
        if (Known(s.currencies, code) ==> value > 0.0) && AllWritable(s.currencies, rest) {
          forall k | 0 <= k < |rates| && Known(s.currencies, rates[k].0)
            ensures rates[k].1 > 0.0
          {
            if k > 0 {
              assert rates[k] == rest[k - 1];
            }
          }
        }
      }
      match CodeIndex(s.currencies, code)
      case None =>
        ApplyRatesCompletes(s, rest, now);
      case Some(i) =>
        var a := SetCurrencyValue(s.currencies[i], PyFloat(value));
        if a.raised.None? {
          var s' := s.(currencies := s.currencies[i := a.obj],
                       history := History.Add(s.history, code, value, None, now));
          assert CharCodes(s'.currencies) == CharCodes(s.currencies);
          ApplyRatesCompletes(s', rest, now);
        }
    }
  }

  /**
   A rate not above zero for a known code stops the loop there: the state is
   what the entries before it produce, and the setter's ValueError is raised.
   */
  lemma {:induction false} ApplyRatesStopsAtBadRate(s: State, rates: Currencies.Rates, now: History.Instant, k: nat)
    requires k < |rates| && Known(s.currencies, rates[k].0) && rates[k].1 <= 0.0
    requires AllWritable(s.currencies, rates[..k])
    ensures ApplyRates(s, rates, now) == (ApplyRates(s, rates[..k], now).0, Some(ValueError(CURRENCY_VALUE_MSG)))
    decreases k
  {
    var (code, value) := rates[0];
    var rest := rates[1..];
    if k == 0 {
      assert rates[..0] == [];
    } else {
      assert rates[..k][0] == rates[0];
      assert rates[..k][1..] == rest[..k - 1];
      var pre := rest[..k - 1];
      assert AllWritable(s.currencies, pre) by {
        forall j | 0 <= j < |pre| && Known(s.currencies, pre[j].0)
          ensures pre[j].1 > 0.0
        {
          assert pre[j] == rates[..k][j + 1];
        }
      }
      assert rest[k - 1] == rates[k];
      match CodeIndex(s.currencies, code)
      case None =>
        ApplyRatesStopsAtBadRate(s, rest, now, k - 1);
      case Some(i) =>
        assert rates[..k][0].1 > 0.0;
        var a := SetCurrencyValue(s.currencies[i], PyFloat(value));
        var s' := s.(currencies := s.currencies[i := a.obj],
                     history := History.Add(s.history, code, value, None, now));
        assert CharCodes(s'.currencies) == CharCodes(s.currencies);
        ApplyRatesStopsAtBadRate(s', rest, now, k - 1);
    }
  }

  /** The loop writes `code`: it is a key of the fetched dict and some currency has it. */
  predicate Applies(cs: seq<Currency>, rates: Currencies.Rates, code: string) {
    Currencies.Get(rates, code).Some? && Known(cs, code)
  }

  /** The value the loop leaves in currency `i`. */
  function ExpectedCurrency(cs: seq<Currency>, rates: Currencies.Rates, i: nat): Currency
    requires i < |cs|
  {
    var code := cs[i].charCode;
    if CodeIndex(cs, code) == Some(i) && Currencies.Get(rates, code).Some?
    then cs[i].(value := Currencies.Get(rates, code).value)
    else cs[i]
  }

  /** The series the loop leaves for `code`. */
  function ExpectedSeries(s: State, rates: Currencies.Rates, code: string, now: History.Instant): History.Series {
    if Applies(s.currencies, rates, code)
    then History.SeriesOf(History.Add(s.history, code, Currencies.Get(rates, code).value, None, now), code)
    else History.SeriesOf(s.history, code)
  }

  /** What the loop needs to know about the entries after the first. */
  lemma RestOfRates(cs: seq<Currency>, rates: Currencies.Rates)
    requires rates != []
    requires Currencies.DistinctKeys(rates) && AllWritable(cs, rates)
    ensures Currencies.DistinctKeys(rates[1..]) && AllWritable(cs, rates[1..])
    ensures Currencies.Get(rates, rates[0].0) == Some(rates[0].1)
    ensures Currencies.Get(rates[1..], rates[0].0).None?
    ensures forall c :: c != rates[0].0 ==> Currencies.Get(rates, c) == Currencies.Get(rates[1..], c)
  {
    assert forall k :: 0 <= k < |rates[1..]| ==> rates[1..][k] == rates[k + 1];
  }

  /**
   When the dict has distinct keys and every rate of a known code is above
   zero, the first currency with each fetched code ends with that code's rate
   and every other currency is unchanged, whatever the order of the entries.
   */
  lemma {:induction false} ApplyRatesCurrencies(s: State, rates: Currencies.Rates, now: History.Instant)
    requires Currencies.DistinctKeys(rates)
    requires AllWritable(s.currencies, rates)
    ensures forall i :: 0 <= i < |s.currencies| ==>
              ApplyRates(s, rates, now).0.currencies[i] == ExpectedCurrency(s.currencies, rates, i)
    decreases |rates|
  {
    if rates != [] {
      var code := rates[0].0;
      var value := rates[0].1;
      var rest := rates[1..];
      RestOfRates(s.currencies, rates);
      var r := ApplyRates(s, rates, now).0;
      match CodeIndex(s.currencies, code)
      case None =>
        ApplyRatesCurrencies(s, rest, now);
        forall i | 0 <= i < |s.currencies|
          ensures r.currencies[i] == ExpectedCurrency(s.currencies, rates, i)
        {
          var c := s.currencies[i].charCode;
          if CodeIndex(s.currencies, c) == Some(i) {
            assert c != code;
          }
        }
      case Some(i0) =>
        var s' := Write(s, i0, code, value, now);
        ApplyRatesStep(s, rates, now);
        ApplyRatesCurrencies(s', rest, now);
        forall i | 0 <= i < |s.currencies|
          ensures r.currencies[i] == ExpectedCurrency(s.currencies, rates, i)
        {
          assert r.currencies[i] == ExpectedCurrency(s'.currencies, rest, i);
          assert CodeIndex(s'.currencies, s'.currencies[i].charCode) == CodeIndex(s.currencies, s.currencies[i].charCode);
        }
    }
  }

  /** One `HISTORY.add(code, value)` seen from another code `c`. */
  lemma AddSeenFrom(h: History.RateHistory, code: string, value: real, now: History.Instant, c: string)
    ensures c != code ==> History.SeriesOf(History.Add(h, code, value, None, now), c) == History.SeriesOf(h, c)
    ensures c in History.Add(h, code, value, None, now).data <==> c in h.data || c == code
  {
  }

  /**
   What the rest of the loop is expected to leave for `c` after the first
   entry is written is what the whole loop is expected to leave.
   */
  lemma ExpectedSeriesStep(s: State, rates: Currencies.Rates, now: History.Instant, c: string)
    requires rates != [] && Currencies.DistinctKeys(rates) && AllWritable(s.currencies, rates)
    requires Known(s.currencies, rates[0].0)
    ensures ExpectedSeries(Write(s, CodeIndex(s.currencies, rates[0].0).value, rates[0].0, rates[0].1, now), rates[1..], c, now)
            == ExpectedSeries(s, rates, c, now)
  {
    var code, value := rates[0].0, rates[0].1;
    var s' := Write(s, CodeIndex(s.currencies, code).value, code, value, now);
    RestOfRates(s.currencies, rates);
    AddSeenFrom(s.history, code, value, now, c);
    assert Known(s'.currencies, c) == Known(s.currencies, c);
    if c != code && Applies(s.currencies, rates, c) {
      History.AddDependsOnlyOnItsSeries(s'.history, s.history, c, Currencies.Get(rates, c).value, None, now);
    }
  }

  /**
   Under the same conditions, the series of `c` after the loop is its old
   series with the new point appended and pruned when `c` is written, and the
   old series otherwise.
   */
  lemma {:induction false} ApplyRatesSeries(s: State, rates: Currencies.Rates, now: History.Instant, c: string)
    requires Currencies.DistinctKeys(rates)
    requires AllWritable(s.currencies, rates)
    ensures History.SeriesOf(ApplyRates(s, rates, now).0.history, c) == ExpectedSeries(s, rates, c, now)
    decreases |rates|
  {
    if rates != [] {
      var code := rates[0].0;
      var rest := rates[1..];
      RestOfRates(s.currencies, rates);
      match CodeIndex(s.currencies, code)
      case None =>
        ApplyRatesSeries(s, rest, now, c);
        assert Applies(s.currencies, rates, c) == Applies(s.currencies, rest, c);
      case Some(i0) =>
        ApplyRatesStep(s, rates, now);
        ApplyRatesSeries(Write(s, i0, code, rates[0].1, now), rest, now, c);
        ExpectedSeriesStep(s, rates, now, c);
    }
  }

  /** Under the same conditions, `c` has a series after the loop exactly when it had one or is written. */
  lemma {:induction false} ApplyRatesKeys(s: State, rates: Currencies.Rates, now: History.Instant, c: string)
    requires Currencies.DistinctKeys(rates)
    requires AllWritable(s.currencies, rates)
    ensures c in ApplyRates(s, rates, now).0.history.data <==> c in s.history.data || Applies(s.currencies, rates, c)
    decreases |rates|
  {
    if rates != [] {
      var code := rates[0].0;
      var value := rates[0].1;
      var rest := rates[1..];
      RestOfRates(s.currencies, rates);
      match CodeIndex(s.currencies, code)
      case None =>
        ApplyRatesKeys(s, rest, now, c);
      case Some(i0) =>
        var s' := Write(s, i0, code, value, now);
        ApplyRatesStep(s, rates, now);
        ApplyRatesKeys(s', rest, now, c);
        AddSeenFrom(s.history, code, value, now, c);
    }
  }

  /** `ApplyRatesSeries` for every code at once. */
  lemma ApplyRatesHistory(s: State, rates: Currencies.Rates, now: History.Instant)
    requires Currencies.DistinctKeys(rates)
    requires AllWritable(s.currencies, rates)
    ensures forall c :: History.SeriesOf(ApplyRates(s, rates, now).0.history, c) == ExpectedSeries(s, rates, c, now)
    ensures forall c :: c in ApplyRates(s, rates, now).0.history.data <==> c in s.history.data || Applies(s.currencies, rates, c)
  {
    forall c
      ensures History.SeriesOf(ApplyRates(s, rates, now).0.history, c) == ExpectedSeries(s, rates, c, now)
      ensures c in ApplyRates(s, rates, now).0.history.data <==> c in s.history.data || Applies(s.currencies, rates, c)
    {
      ApplyRatesSeries(s, rates, now, c);
      ApplyRatesKeys(s, rates, now, c);
    }
  }

  /**
   `update_rates()`: fetch the rates of the catalogue's char codes, then run
   the loop. A failed fetch raises before anything is touched.
   */
  function UpdateRates(s: State, fetch: seq<string> -> Result<Currencies.Rates, Exc>, now: History.Instant)
    : (r: (State, Option<Exc>))
    ensures fetch(CharCodes(s.currencies)).Failure? ==> r == (s, Some(fetch(CharCodes(s.currencies)).error))
    ensures r.0.users == s.users && r.0.subscriptions == s.subscriptions
    ensures CharCodes(r.0.currencies) == CharCodes(s.currencies)
    ensures Valid(s) ==> Valid(r.0)
    ensures r.1.None? <==> fetch(CharCodes(s.currencies)).Success? && AllWritable(s.currencies, fetch(CharCodes(s.currencies)).value)
    ensures fetch(CharCodes(s.currencies)).Success? ==> r == ApplyRates(s, fetch(CharCodes(s.currencies)).value, now)
  {
    match fetch(CharCodes(s.currencies))
    case Failure(e) => (s, Some(e))
    case Success(rates) =>
      ApplyRatesKeepsCodes(s, rates, now);
      ApplyRatesCompletes(s, rates, now);
      ApplyRates(s, rates, now)
  }

  /**
   A successful fetch with distinct codes and acceptable rates: every currency
   ends with the rate of its code, if fetched, and every code's series has one
   new point per fetched rate, as `ExpectedCurrency` and `ExpectedSeries` say.
   */
  lemma UpdateRatesApplies(s: State, fetch: seq<string> -> Result<Currencies.Rates, Exc>, now: History.Instant)
    requires fetch(CharCodes(s.currencies)).Success?
    requires Currencies.DistinctKeys(fetch(CharCodes(s.currencies)).value)
    requires AllWritable(s.currencies, fetch(CharCodes(s.currencies)).value)
    ensures UpdateRates(s, fetch, now).1.None?
    ensures forall i :: 0 <= i < |s.currencies| ==>
              UpdateRates(s, fetch, now).0.currencies[i] == ExpectedCurrency(s.currencies, fetch(CharCodes(s.currencies)).value, i)
    ensures forall c :: History.SeriesOf(UpdateRates(s, fetch, now).0.history, c)
                        == ExpectedSeries(s, fetch(CharCodes(s.currencies)).value, c, now)
  {
    var rates := fetch(CharCodes(s.currencies)).value;
    ApplyRatesCurrencies(s, rates, now);
    ApplyRatesHistory(s, rates, now);
  }

  /**
   With the fetch of task_7 (`get_currencies` over the catalogue's codes), a
   successful fetch returns distinct keys that are all catalogue codes, so no
   fetched entry is skipped.
   */
  lemma UpstreamCodesAreKnown(s: State, upstream: Currencies.Fetched)
    ensures var res := Currencies.GetCurrencies(Currencies.CodeList(CharCodes(s.currencies)), upstream);
            res.Success? ==>
              && Currencies.DistinctKeys(res.value)
              && forall k :: 0 <= k < |res.value| ==> Known(s.currencies, res.value[k].0)
  {
    var codes := CharCodes(s.currencies);
    var res := Currencies.GetCurrencies(Currencies.CodeList(codes), upstream);
    if res.Success? {
      forall k | 0 <= k < |res.value|
        ensures Known(s.currencies, res.value[k].0)
      {
        assert res.value[k].0 in Currencies.Keys(res.value);
        var j :| 0 <= j < |codes| && codes[j] == res.value[k].0;
      }
    }
  }

  /** The code lookups on the seeded catalogue. */
  lemma SeededCodes()
    ensures CodeIndex(Initial().currencies, "USD") == Some(0)
    ensures CodeIndex(Initial().currencies, "EUR") == Some(1)
    ensures CodeIndex(Initial().currencies, "GBP") == Some(2)
  {
    assert CharCodes(Initial().currencies) == ["USD", "EUR", "GBP"];
  }

  /** A fetch that answers USD 93.25 and EUR 101.7 whatever codes it is asked for. */
  function SeededFetch(codes: seq<string>): Result<Currencies.Rates, Exc> {
    Success([("USD", 93.25), ("EUR", 101.7)])
  }

  /** The loop over the seeded fetch's answer completes on the seeded catalogue. */
  lemma SeededRatesWritable()
    ensures Currencies.DistinctKeys(SeededFetch([]).value)
    ensures AllWritable(Initial().currencies, SeededFetch([]).value)
    ensures Currencies.Get(SeededFetch([]).value, "USD") == Some(93.25)
    ensures Currencies.Get(SeededFetch([]).value, "EUR") == Some(101.7)
    ensures Currencies.Get(SeededFetch([]).value, "GBP") == None
  {
    var rates := SeededFetch([]).value;
    assert rates[0].1 > 0.0 && rates[1].1 > 0.0;
  }

  /**
   The seeded application after one `update_rates` with that fetch: USD and
   EUR carry the new rates and GBP keeps 1.0.
   */
  lemma UpdateSeededCurrencies(now: History.Instant)
    ensures UpdateRates(Initial(), SeededFetch, now).1.None?
    ensures UpdateRates(Initial(), SeededFetch, now).0.currencies[0].value == 93.25
    ensures UpdateRates(Initial(), SeededFetch, now).0.currencies[1].value == 101.7
    ensures UpdateRates(Initial(), SeededFetch, now).0.currencies[2].value == 1.0
  {
    var s := Initial();
    var rates := SeededFetch(CharCodes(s.currencies)).value;
    assert UpdateRates(s, SeededFetch, now) == ApplyRates(s, rates, now);
    SeededCodes();
    SeededRatesWritable();
    ApplyRatesCompletes(s, rates, now);
    ApplyRatesCurrencies(s, rates, now);
    var cs := ApplyRates(s, rates, now).0.currencies;
    assert cs[0] == ExpectedCurrency(s.currencies, rates, 0) == s.currencies[0].(value := 93.25);
    assert cs[1] == ExpectedCurrency(s.currencies, rates, 1) == s.currencies[1].(value := 101.7);
    assert cs[2] == ExpectedCurrency(s.currencies, rates, 2) == s.currencies[2];
  }

  /** After that update, the USD series is the one new point. */
  lemma UpdateSeededUsdSeries(now: History.Instant)
    ensures History.SeriesOf(UpdateRates(Initial(), SeededFetch, now).0.history, "USD") == [History.Point(now, 93.25)]
  {
    var s := Initial();
    var rates := SeededFetch(CharCodes(s.currencies)).value;
    var after := UpdateRates(s, SeededFetch, now).0.history;
    assert after == ApplyRates(s, rates, now).0.history;
    assert History.SeriesOf(after, "USD") == ExpectedSeries(s, rates, "USD", now) by {
      SeededRatesWritable();
      ApplyRatesSeries(s, rates, now, "USD");
    }
    assert ExpectedSeries(s, rates, "USD", now) == History.SeriesOf(History.Add(s.history, "USD", 93.25, None, now), "USD") by {
      SeededCodes();
      SeededRatesWritable();
    }
    History.AddToEmpty(s.history, "USD", 93.25, now);
  }

  /** After that update, the default 90-day window of USD holds exactly the new point. */
  lemma UpdateSeededHistory(now: History.Instant)
    ensures History.LastNDays(UpdateRates(Initial(), SeededFetch, now).0.history, "USD", History.DEFAULT_WINDOW_DAYS, now)
            == [History.Point(now, 93.25)]
  {
    var after := UpdateRates(Initial(), SeededFetch, now).0.history;
    UpdateSeededUsdSeries(now);
    History.WindowCoversAll(after, "USD", History.DEFAULT_WINDOW_DAYS, now);
  }
}
