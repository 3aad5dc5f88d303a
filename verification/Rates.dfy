/**
 Dashboard conversion over the table of dated US dollar rates: a per-request cache that must agree with the
 table, and totals that leave out, and report, what has no rate.
 */
module Rates {
  import opened Prelude
  import opened Sums
  import Money
  import Fx

  /** One stored rate of a currency per US dollar, in units of 10^-8; the table keeps rates positive. */
  datatype RateRow = RateRow(quote: nat, day: int, rate: int, stale: bool)

  const USD: nat := 0

  predicate TableValid(table: seq<RateRow>) {
    forall i :: 0 <= i < |table| ==> table[i].rate > 0
  }

  /** The stored rate with the latest date on or before the day. */
  function Latest(table: seq<RateRow>, quote: nat, day: int): (found: Option<RateRow>)
    ensures found.Some? ==> found.value in table && found.value.quote == quote && found.value.day <= day
    ensures found.Some? ==> forall r :: r in table && r.quote == quote && r.day <= day ==> r.day <= found.value.day
    ensures found.None? ==> forall r :: r in table && r.quote == quote ==> day < r.day
  {
    if table == [] then None
    else
      var last, rest := table[|table| - 1], Latest(table[..|table| - 1], quote, day);
      if last.quote == quote && last.day <= day && (rest.None? || rest.value.day < last.day) then Some(last) else rest
  }

  /** Currencies are normalised codes; the dollar has rate one. */
  function RateOf(table: seq<RateRow>, currency: nat, day: int): (rate: Result<Fx.Rational, Fx.FxError>)
    ensures rate.Ok? && TableValid(table) ==> rate.value.num > 0
  {
    if currency == USD then Ok(Fx.Rat(1, 1))
    else
      var row := Latest(table, currency, day);
      if row.None? then Err(Fx.Unavailable) else Ok(Fx.Rat(row.value.rate, Fx.UNITS))
  }

  /** Conversion by looking both rates up afresh: a value, or nothing when a rate is missing, or an error. */
  function ConvertUncached(
      table: seq<RateRow>, amount: int, from: nat, to: nat, day: int): Result<Option<int>, Fx.FxError>
    requires TableValid(table)
  {
    if from == to then Ok(Some(amount))
    else
      var fromRate, toRate := RateOf(table, from, day), RateOf(table, to, day);
      if fromRate.Err? || toRate.Err? then Ok(None)
      else
        match Fx.Convert(amount, false, fromRate, toRate)
        case Ok(value) => Ok(Some(value))
        case Err(e) => Err(e)
  }

  /** The currency reported when a conversion is impossible: the first of the two without a rate. */
  function Missing(table: seq<RateRow>, from: nat, to: nat, day: int): set<nat> {
    if from == to then {}
    else if RateOf(table, from, day).Err? then {from}
    else if RateOf(table, to, day).Err? then {to}
    else {}
  }

  /** The rates a conversion looks at, of those that are marked stale. */
  function StaleAt(table: seq<RateRow>, currency: nat, day: int): set<nat> {
    var row := Latest(table, currency, day);
    if currency != USD && row.Some? && row.value.stale then {currency} else {}
  }

  function Stale(table: seq<RateRow>, from: nat, to: nat, day: int): set<nat> {
    if from == to then {}
    else if RateOf(table, from, day).Err? then {}
    else StaleAt(table, from, day) + StaleAt(table, to, day)
  }

  datatype Side = Asset | Liability
  datatype Balance = Balance(side: Side, liquid: bool, currency: nat, amount: int)

  function ConvertedValue(table: seq<RateRow>, b: Balance, display: nat, day: int): int
    requires TableValid(table)
  {
    match ConvertUncached(table, b.amount, b.currency, display, day)
    case Ok(Some(value)) => value
    case _ => 0
  }

  predicate Convertible(table: seq<RateRow>, b: Balance, display: nat, day: int) {
    Missing(table, b.currency, display, day) == {}
  }

  datatype State = Complete | StaleState | Incomplete

  datatype Totals = Totals(netWorth: int, assets: int, liabilities: int, cash: int, exposure: map<nat, int>)

  /** One iteration of the totals loop over an account that could be converted. */
  function AddBalance(t: Totals, b: Balance, value: int): Totals {
    if b.side == Asset then
      var held := if b.currency in t.exposure then t.exposure[b.currency] else 0;
      Totals(t.netWorth + value, t.assets + value, t.liabilities, if b.liquid then t.cash + value else t.cash,
             t.exposure[b.currency := held + value])
    else if value <= 0 then t.(netWorth := t.netWorth + value, liabilities := t.liabilities - value)
    else t.(netWorth := t.netWorth + value)
  }

  function TotalsOf(table: seq<RateRow>, balances: seq<Balance>, display: nat, day: int): Totals
    requires TableValid(table)
  {
    if balances == [] then Totals(0, 0, 0, 0, map[])
    else
      var rest, last := TotalsOf(table, balances[..|balances| - 1], display, day), balances[|balances| - 1];
      if Convertible(table, last, display, day) then AddBalance(rest, last, ConvertedValue(table, last, display, day))
      else rest
  }

  class DashboardRates {
    const table: seq<RateRow>
    var date: int
    var cache: map<(nat, int), int>
    var missing: set<nat>
    var stale: set<nat>

    /** Every cached rate is the table's answer for its currency and date. */
    ghost predicate Valid()
      reads this
    {
      && TableValid(table)
      && (forall key :: key in cache ==>
            Latest(table, key.0, key.1).Some? && cache[key] == Latest(table, key.0, key.1).value.rate
            && (Latest(table, key.0, key.1).value.stale ==> key.0 in stale))
    }

    constructor (table: seq<RateRow>, date: int)
      requires TableValid(table)
      ensures Valid() && this.table == table && missing == {} && stale == {}
    {
      this.table, this.date := table, date;
      cache, missing, stale := map[], {}, {};
    }

    method Lookup(quote: nat) returns (result: Result<int, Fx.FxError>)
      requires Valid() && quote != USD
      modifies `cache, `stale
      ensures Valid()
      ensures result == (match Latest(table, quote, date) case Some(row) => Ok(row.rate)
                         case None => Err(Fx.Unavailable))
      ensures stale == old(stale) + StaleAt(table, quote, date)
    {
      var key := (quote, date);
      if key in cache {
        return Ok(cache[key]);
      }
      var row := Latest(table, quote, date);
      if row.None? {
        return Err(Fx.Unavailable);
      }
      if row.value.stale {
        stale := stale + {quote};
      }
      cache := cache[key := row.value.rate];
      return Ok(row.value.rate);
    }

    method RateFor(currency: nat) returns (result: Result<Fx.Rational, Fx.FxError>)
      requires Valid()
      modifies `cache, `stale
      ensures Valid()
      ensures result == RateOf(table, currency, date)
      ensures stale == old(stale) + StaleAt(table, currency, date)
    {
      if currency == USD {
        return Ok(Fx.Rat(1, 1));
      }
      var rate := Lookup(currency);
      if rate.Err? {
        return Err(rate.error);
      }
      return Ok(Fx.Rat(rate.value, Fx.UNITS));
    }

    /** Whatever is cached, the answer is the uncached one, and a currency is reported exactly when it is missing. */
    method Convert(amount: int, from: nat, to: nat, day: int) returns (result: Result<Option<int>, Fx.FxError>)
      requires Valid()
      modifies this
      ensures Valid() && date == day
      ensures result == ConvertUncached(table, amount, from, to, day)
      ensures missing == old(missing) + Missing(table, from, to, day)
      ensures stale == old(stale) + Stale(table, from, to, day)
      ensures result == Ok(None) <==> Missing(table, from, to, day) != {}
    {
      hide Fx.Convert;
      date := day;
      if from == to {
        return Ok(Some(amount));
      }
      var fromRate := RateFor(from);
      if fromRate.Err? {
        missing := missing + {from};
        return Ok(None);
      }
      var toRate := RateFor(to);
      if toRate.Err? {
        missing := missing + {to};
        return Ok(None);
      }
      fromRate := RateFor(from);
      toRate := RateFor(to);
      match Fx.Convert(amount, false, fromRate, toRate) {
        case Ok(value) => result := Ok(Some(value));
        case Err(e) => result := Err(e);
      }
    }

    method FxState() returns (state: State)
      ensures state == Incomplete <==> missing != {}
      ensures state == Complete <==> missing == {} && stale == {}
    {
      if missing != {} {
        return Incomplete;
      }
      if stale != {} {
        return StaleState;
      }
      return Complete;
    }

    /** The totals loop: the first conversion error ends it; an account without a rate is left out and reported. */
    method BalanceTotals(balances: seq<Balance>, display: nat, day: int) returns (result: Result<Totals, Fx.FxError>)
      requires Valid() && missing == {}
      modifies this
      ensures Valid()
      ensures match FirstFailure(table, balances, display, day)
              case Some(error) => result == Err(error)
              case None =>
                && result == Ok(TotalsOf(table, balances, display, day))
                && (missing != {} <==>
                      exists i :: 0 <= i < |balances| && !Convertible(table, balances[i], display, day))
                && stale == old(stale) + StaleOf(table, balances, display, day)
    {
      hide Latest, Fx.Convert, RateOf, Missing, ConvertUncached, TotalsOf;
      var totals := Totals(0, 0, 0, 0, map[]);
      assert totals == TotalsOf(table, balances[..0], display, day) by {
        NoTotals(table, display, day);
        assert balances[..0] == [];
      }
      for i := 0 to |balances|
        invariant Valid()
        invariant totals == TotalsOf(table, balances[..i], display, day)
        invariant FirstFailure(table, balances[..i], display, day).None?
        invariant missing != {} <==> exists j :: 0 <= j < i && !Convertible(table, balances[j], display, day)
        invariant stale == old(stale) + StaleOf(table, balances[..i], display, day)
      {
        assert balances[..i + 1][..i] == balances[..i];
        var b := balances[i];
        TotalsStep(table, balances[..i + 1], display, day);
        var converted := Convert(b.amount, b.currency, display, day);
        if converted.Err? {
          FailureStays(table, balances, i + 1, display, day);
          return Err(converted.error);
        }
        if converted.value.Some? {
          totals := AddBalance(totals, b, converted.value.value);
        }
      }
      assert balances[..|balances|] == balances;
      return Ok(totals);
    }

    /** The balance part of a dashboard: totals, and how far they can be trusted. */
    method BalanceSheet(
        balances: seq<Balance>, display: nat, day: int) returns (result: Result<(Totals, State), Fx.FxError>)
      requires Valid() && missing == {} && stale == {}
      modifies this
      ensures Valid()
      ensures match FirstFailure(table, balances, display, day)
              case Some(error) => result == Err(error)
              case None =>
                var complete := forall i :: 0 <= i < |balances| ==> Convertible(table, balances[i], display, day);
                && result.Ok? && result.value.0 == TotalsOf(table, balances, display, day)
                && (result.value.1 == Incomplete <==> !complete)
                && (result.value.1 == StaleState <==>
                      complete && exists i :: 0 <= i < |balances| && UsesStaleRate(table, balances[i], display, day))
    {
      hide Latest, TotalsOf, FirstFailure, ConvertUncached, Convertible, UsesStaleRate, StaleOf;
      var totals := BalanceTotals(balances, display, day);
      if totals.Err? {
        return Err(totals.error);
      }
      var state := FxState();
      StaleExactly(table, balances, display, day);
      return Ok((totals.value, state));
    }
  }

  // ----- staleness and failures over many balances

  /** The error of the first balance whose conversion fails; a missing rate is no failure. */
  function FirstFailure(table: seq<RateRow>, balances: seq<Balance>, display: nat, day: int): Option<Fx.FxError>
    requires TableValid(table)
  {
    if balances == [] then None
    else
      var last := balances[|balances| - 1];
      var before := FirstFailure(table, balances[..|balances| - 1], display, day);
      if before.Some? then before
      else
        match ConvertUncached(table, last.amount, last.currency, display, day)
        case Ok(_) => None
        case Err(e) => Some(e)
  }

  /** The conversion of a balance looks up a rate that is marked stale. */
  predicate UsesStaleRate(table: seq<RateRow>, b: Balance, display: nat, day: int) {
    b.currency != display && (IsStale(table, b.currency, day) || IsStale(table, display, day))
  }

  predicate IsStale(table: seq<RateRow>, currency: nat, day: int) {
    var row := Latest(table, currency, day);
    currency != USD && row.Some? && row.value.stale
  }

  function StaleOf(table: seq<RateRow>, balances: seq<Balance>, display: nat, day: int): set<nat> {
    if balances == [] then {}
    else
      StaleOf(table, balances[..|balances| - 1], display, day)
        + Stale(table, balances[|balances| - 1].currency, display, day)
  }

  lemma {:induction false} StaleExactly(table: seq<RateRow>, balances: seq<Balance>, display: nat, day: int)
    requires TableValid(table)
    ensures (forall i :: 0 <= i < |balances| ==> Convertible(table, balances[i], display, day)) ==>
              (StaleOf(table, balances, display, day) != {}
               <==> exists i :: 0 <= i < |balances| && UsesStaleRate(table, balances[i], display, day))
  {
    hide Latest, TableValid;
    if balances != [] && (forall i :: 0 <= i < |balances| ==> Convertible(table, balances[i], display, day)) {
      var rest, last := balances[..|balances| - 1], balances[|balances| - 1];
      StaleExactly(table, rest, display, day);
      StaleOfOne(table, last, display, day);
      forall i | 0 <= i < |rest|
        ensures Convertible(table, rest[i], display, day)
      {
        assert rest[i] == balances[i];
      }
      if exists i :: 0 <= i < |balances| && UsesStaleRate(table, balances[i], display, day) {
        var i :| 0 <= i < |balances| && UsesStaleRate(table, balances[i], display, day);
        assert i < |rest| ==> UsesStaleRate(table, rest[i], display, day);
      }
      if i :| 0 <= i < |rest| && UsesStaleRate(table, rest[i], display, day) {
        assert UsesStaleRate(table, balances[i], display, day);
      }
    }
  }

  lemma StaleOfOne(table: seq<RateRow>, b: Balance, display: nat, day: int)
    requires TableValid(table) && Convertible(table, b, display, day)
    ensures Stale(table, b.currency, display, day) != {} <==> UsesStaleRate(table, b, display, day)
  {
    hide Latest;
  }

  lemma NoTotals(table: seq<RateRow>, display: nat, day: int)
    requires TableValid(table)
    ensures TotalsOf(table, [], display, day) == Totals(0, 0, 0, 0, map[])
  {
  }

  lemma TotalsStep(table: seq<RateRow>, balances: seq<Balance>, display: nat, day: int)
    requires TableValid(table) && balances != []
    ensures var rest, last := balances[..|balances| - 1], balances[|balances| - 1];
            && (ConvertUncached(table, last.amount, last.currency, display, day) == Ok(None)
                <==> !Convertible(table, last, display, day))
            && TotalsOf(table, balances, display, day) ==
               match ConvertUncached(table, last.amount, last.currency, display, day)
               case Ok(Some(value)) => AddBalance(TotalsOf(table, rest, display, day), last, value)
               case Ok(None) => TotalsOf(table, rest, display, day)
               case Err(_) => AddBalance(TotalsOf(table, rest, display, day), last, 0)
  {
    hide Latest, Fx.Convert;
  }

  lemma {:induction false} FailureStays(table: seq<RateRow>, balances: seq<Balance>, n: nat, display: nat, day: int)
    requires TableValid(table) && n <= |balances| && FirstFailure(table, balances[..n], display, day).Some?
    ensures FirstFailure(table, balances, display, day) == FirstFailure(table, balances[..n], display, day)
    decreases |balances| - n
  {
    hide ConvertUncached;
    if n < |balances| {
      assert balances[..n + 1][..n] == balances[..n];
      FailureStays(table, balances, n + 1, display, day);
    } else {
      assert balances[..n] == balances;
    }
  }

  // ----- what the totals mean

  /** Currency exposure splits the assets and loses nothing. */
  ghost function ExposureSum(t: Totals): int {
    SumOver<nat>(t.exposure.Keys, (c: nat) => if c in t.exposure then t.exposure[c] else 0)
  }

  lemma {:induction false} AddToExposure(exposure: map<nat, int>, c: nat, value: int)
    ensures var held := if c in exposure then exposure[c] else 0;
            var after := exposure[c := held + value];
            SumOver<nat>(after.Keys, (x: nat) => if x in after then after[x] else 0)
            == SumOver<nat>(exposure.Keys, (x: nat) => if x in exposure then exposure[x] else 0) + value
  {
    var held := if c in exposure then exposure[c] else 0;
    var after := exposure[c := held + value];
    var f, g := (x: nat) => if x in exposure then exposure[x] else 0, (x: nat) => if x in after then after[x] else 0;
    SumSplitsOff<nat>(after.Keys, c, g);
    if c in exposure {
      SumSplitsOff<nat>(exposure.Keys, c, f);
      assert after.Keys == exposure.Keys;
    } else {
      assert after.Keys - {c} == exposure.Keys;
    }
    SumSame<nat>(after.Keys - {c}, f, g);
  }

  lemma {:induction false} ExposureSplitsAssets(table: seq<RateRow>, balances: seq<Balance>, display: nat, day: int)
    requires TableValid(table)
    ensures ExposureSum(TotalsOf(table, balances, display, day)) == TotalsOf(table, balances, display, day).assets
  {
    hide ConvertedValue, Convertible;
    if balances != [] {
      var rest, last := balances[..|balances| - 1], balances[|balances| - 1];
      ExposureSplitsAssets(table, rest, display, day);
      var before := TotalsOf(table, rest, display, day);
      AddToExposure(before.exposure, last.currency, ConvertedValue(table, last, display, day));
    }
  }

  /** The balances of liquid asset accounts. */
  function Liquid(balances: seq<Balance>): seq<Balance> {
    if balances == [] then []
    else
      var last := balances[|balances| - 1];
      Liquid(balances[..|balances| - 1]) + (if last.side == Asset && last.liquid then [last] else [])
  }

  /** Cash is what the assets would be if only the liquid asset accounts were counted. */
  lemma {:induction false} CashIsLiquidAssets(table: seq<RateRow>, balances: seq<Balance>, display: nat, day: int)
    requires TableValid(table)
    ensures TotalsOf(table, balances, display, day).cash == TotalsOf(table, Liquid(balances), display, day).assets
  {
    hide ConvertedValue, Convertible, TableValid;
    if balances != [] {
      var rest, last := balances[..|balances| - 1], balances[|balances| - 1];
      CashIsLiquidAssets(table, rest, display, day);
      if last.side == Asset && last.liquid {
        assert (Liquid(rest) + [last])[..|Liquid(rest)|] == Liquid(rest);
      } else {
        assert Liquid(balances) == Liquid(rest);
      }
    }
  }

  /** A convertible liability account with a positive balance: money owed to the owner. */
  predicate OverpaidLiability(table: seq<RateRow>, b: Balance, display: nat, day: int)
    requires TableValid(table)
  {
    b.side == Liability && Convertible(table, b, display, day) && ConvertedValue(table, b, display, day) > 0
  }

  /** Net worth is assets less liabilities exactly when no liability account is overpaid; otherwise it is more. */
  lemma {:induction false} NetWorthIsAssetsLessLiabilities(
      table: seq<RateRow>, balances: seq<Balance>, display: nat, day: int)
    requires TableValid(table)
    ensures var t := TotalsOf(table, balances, display, day);
            && t.netWorth >= t.assets - t.liabilities
            && (t.netWorth == t.assets - t.liabilities <==>
                  !exists i :: 0 <= i < |balances| && OverpaidLiability(table, balances[i], display, day))
  {
    hide ConvertedValue, Convertible;
    if balances != [] {
      var rest, last := balances[..|balances| - 1], balances[|balances| - 1];
      NetWorthIsAssetsLessLiabilities(table, rest, display, day);
      forall i | 0 <= i < |balances|
        ensures OverpaidLiability(table, balances[i], display, day) <==>
                if i == |rest| then OverpaidLiability(table, last, display, day)
                else OverpaidLiability(table, rest[i], display, day)
      {
      }
    }
  }

  // ----- how far rounding can move a total

  /** The exact value of a balance in the display currency, in units of 10^-8. */
  ghost function ExactValue(table: seq<RateRow>, b: Balance, display: nat, day: int): real
    requires TableValid(table) && Convertible(table, b, display, day)
  {
    if b.currency == display then b.amount as real
    else
      var f, t := RateOf(table, b.currency, day).value, RateOf(table, display, day).value;
      b.amount as real * (t.num as real / t.den as real) / (f.num as real / f.den as real)
  }

  ghost function ExactNetWorth(table: seq<RateRow>, balances: seq<Balance>, display: nat, day: int): real
    requires TableValid(table)
  {
    if balances == [] then 0.0
    else
      var last := balances[|balances| - 1];
      ExactNetWorth(table, balances[..|balances| - 1], display, day)
      + (if Convertible(table, last, display, day) then ExactValue(table, last, display, day) else 0.0)
  }

  lemma {:induction false} ExactIsQuotient(amount: int, from: Fx.Rational, to: Fx.Rational)
    requires from.num > 0 && to.num > 0
    ensures to.den * from.num > 0
    ensures amount as real * (to.num as real / to.den as real) / (from.num as real / from.den as real)
            == (amount * to.num * from.den) as real / (to.den * from.num) as real
  {
    Fx.Positive(to.den, from.num);
    QuotientOfQuotients(amount as real, to.num as real, to.den as real, from.num as real, from.den as real);
    assert (amount * to.num * from.den) as real == amount as real * to.num as real * from.den as real;
    assert (to.den * from.num) as real == to.den as real * from.num as real;
  }

  lemma QuotientOfQuotients(a: real, tn: real, td: real, fn: real, fd: real)
    requires td > 0.0 && fn > 0.0 && fd > 0.0
    ensures td * fn > 0.0
    ensures a * (tn / td) / (fn / fd) == (a * tn * fd) / (td * fn)
  {
    var x, y := tn / td, fn / fd;
    assert x * td == tn && y * fd == fn;
    assert y > 0.0;
    var z := a * x / y;
    assert z * y == a * x;
    assert z * (td * fn) == (a * tn * fd) by {
      assert z * (td * fn) == z * (td * (y * fd)) == (z * y) * td * fd == (a * x) * td * fd == a * (x * td) * fd;
    }
  }

  /** One converted balance is within half a unit of its exact value. */
  lemma {:induction false} ConvertedWithinHalf(table: seq<RateRow>, b: Balance, display: nat, day: int)
    requires TableValid(table) && Convertible(table, b, display, day)
    requires ConvertUncached(table, b.amount, b.currency, display, day).Ok?
    ensures -0.5 <= ConvertedValue(table, b, display, day) as real - ExactValue(table, b, display, day) <= 0.5
  {
    hide Fx.Convert, Fx.Round, Latest, Money.InRange;
    if b.currency != display {
      var from, to := RateOf(table, b.currency, day).value, RateOf(table, display, day).value;
      Fx.ConvertRounds(b.amount, from, to);
      ExactIsQuotient(b.amount, from, to);
      Fx.RoundWithinHalf(b.amount * to.num * from.den, to.den * from.num);
    }
  }

  /** A net worth over n accounts is within n/2 units of the exact rational sum. */
  lemma {:induction false} NetWorthWithinHalfUnits(table: seq<RateRow>, balances: seq<Balance>, display: nat, day: int)
    requires TableValid(table)
    requires forall i :: 0 <= i < |balances| ==>
               ConvertUncached(table, balances[i].amount, balances[i].currency, display, day).Ok?
    ensures var error := TotalsOf(table, balances, display, day).netWorth as real
                         - ExactNetWorth(table, balances, display, day);
            -0.5 * |balances| as real <= error <= 0.5 * |balances| as real
  {
    hide ConvertUncached, ConvertedValue, ExactValue, Convertible;
    if balances != [] {
      var rest, last := balances[..|balances| - 1], balances[|balances| - 1];
      NetWorthWithinHalfUnits(table, rest, display, day);
      if Convertible(table, last, display, day) {
        ConvertedWithinHalf(table, last, display, day);
      }
    }
  }
}
