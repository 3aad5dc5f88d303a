/** The dashboard's totals as sums over the accounts, one by one, and what is reported as missing or stale. */
module RatesTotals {
  import opened Rates
  import Fx

  /** The sum over all accounts, by index, of what each contributes. */
  ghost function SumOfParts(balances: seq<Balance>, part: Balance -> int): int {
    if balances == [] then 0
    else SumOfParts(balances[..|balances| - 1], part) + part(balances[|balances| - 1])
  }

  // ----- the parts

  /** The converted value of an account that can be converted. */
  ghost function ValuePart(table: seq<RateRow>, display: nat, day: int): Balance -> int
    requires TableValid(table)
  {
    (b: Balance) => if Convertible(table, b, display, day) then ConvertedValue(table, b, display, day) else 0
  }

  /** Asset accounts count with their value, overdrawn ones too. */
  ghost function AssetPart(table: seq<RateRow>, display: nat, day: int): Balance -> int
    requires TableValid(table)
  {
    (b: Balance) => if b.side == Asset then ValuePart(table, display, day)(b) else 0
  }

  /** Liability accounts count with what is owed; an overpaid one owes nothing. */
  ghost function OwedPart(table: seq<RateRow>, display: nat, day: int): Balance -> int
    requires TableValid(table)
  {
    (b: Balance) =>
      if b.side == Liability && ValuePart(table, display, day)(b) < 0 then -ValuePart(table, display, day)(b) else 0
  }

  ghost function CashPart(table: seq<RateRow>, display: nat, day: int): Balance -> int
    requires TableValid(table)
  {
    (b: Balance) => if b.side == Asset && b.liquid then ValuePart(table, display, day)(b) else 0
  }

  ghost function CurrencyPart(table: seq<RateRow>, display: nat, day: int, currency: nat): Balance -> int
    requires TableValid(table)
  {
    (b: Balance) => if b.side == Asset && b.currency == currency then ValuePart(table, display, day)(b) else 0
  }

  /**
   Each total is the sum over the accounts it is about: net worth over all, assets over asset accounts of either sign,
   liabilities over what is owed, cash over liquid asset accounts, and a currency's exposure over the asset accounts
   held in it; a currency is listed exactly when a convertible asset account is held in it.
   */
  lemma {:induction false} TotalsAreSums(
      table: seq<RateRow>, balances: seq<Balance>, display: nat, day: int, currency: nat)
    requires TableValid(table)
    ensures var t := TotalsOf(table, balances, display, day);
            && t.netWorth == SumOfParts(balances, ValuePart(table, display, day))
            && t.assets == SumOfParts(balances, AssetPart(table, display, day))
            && t.liabilities == SumOfParts(balances, OwedPart(table, display, day))
            && t.cash == SumOfParts(balances, CashPart(table, display, day))
            && (currency in t.exposure <==>
                  exists i :: 0 <= i < |balances| && balances[i].side == Asset && balances[i].currency == currency
                              && Convertible(table, balances[i], display, day))
            && (if currency in t.exposure then t.exposure[currency] else 0)
               == SumOfParts(balances, CurrencyPart(table, display, day, currency))
  {
    hide ConvertedValue, Convertible;
    if balances != [] {
      var rest := balances[..|balances| - 1];
      TotalsAreSums(table, rest, display, day, currency);
      forall i | 0 <= i < |rest|
        ensures balances[i] == rest[i]
      {
      }
    }
  }

  // ----- what is missing

  predicate HasRate(table: seq<RateRow>, currency: nat, day: int) {
    currency == USD || exists i :: 0 <= i < |table| && table[i].quote == currency && table[i].day <= day
  }

  lemma {:induction false} RateExactlyWhen(table: seq<RateRow>, currency: nat, day: int)
    ensures RateOf(table, currency, day).Ok? <==> HasRate(table, currency, day)
  {
    var found := Latest(table, currency, day);
    if found.Some? && currency != USD {
      var i :| 0 <= i < |table| && table[i] == found.value;
    }
    if currency != USD && HasRate(table, currency, day) {
      var i :| 0 <= i < |table| && table[i].quote == currency && table[i].day <= day;
      assert table[i] in table;
    }
  }

  /**
   An account can be converted exactly when it is held in the display currency or both currencies have a rate by the
   day; what is reported missing is its own currency if that has none, and otherwise the display currency.
   */
  lemma {:induction false} ConvertibleExactlyWhen(table: seq<RateRow>, b: Balance, display: nat, day: int)
    ensures Convertible(table, b, display, day) <==>
              b.currency == display || (HasRate(table, b.currency, day) && HasRate(table, display, day))
    ensures !Convertible(table, b, display, day) ==>
              Missing(table, b.currency, display, day)
              == (if HasRate(table, b.currency, day) then {display} else {b.currency})
  {
    hide RateOf, HasRate;
    RateExactlyWhen(table, b.currency, day);
    RateExactlyWhen(table, display, day);
  }

  /** The rate used is that of the row with the latest date by the day, and of the dollar one. */
  lemma {:induction false} RateUsed(table: seq<RateRow>, currency: nat, day: int)
    requires HasRate(table, currency, day)
    ensures RateOf(table, currency, day).Ok?
    ensures var rate := RateOf(table, currency, day).value;
            if currency == USD then rate == Fx.Rat(1, 1)
            else exists i ::
                   && 0 <= i < |table| && table[i].quote == currency && table[i].day <= day
                   && rate == Fx.Rat(table[i].rate, 100000000)
                   && forall j :: 0 <= j < |table| && table[j].quote == currency && table[j].day <= day ==>
                        table[j].day <= table[i].day
  {
    RateExactlyWhen(table, currency, day);
    if currency != USD {
      var row := Latest(table, currency, day).value;
      var i :| 0 <= i < |table| && table[i] == row;
      forall j | 0 <= j < |table| && table[j].quote == currency && table[j].day <= day
        ensures table[j].day <= table[i].day
      {
        assert table[j] in table;
      }
    }
  }
}
