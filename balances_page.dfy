/** The summary figures of the balances page, computed from the `balances` object
    the server returns for the user (`None` before it loads or when loading failed). */
module BalancesPage {
  import opened Common

  /** One counterparty line of `owes` or `owedBy`. */
  datatype BalanceItem = BalanceItem(userId: Key, userName: string, amount: real)

  datatype Balances = Balances(
    owes: Option<seq<BalanceItem>>,
    owedBy: Option<seq<BalanceItem>>,
    netBalance: Option<real>)

  function Amounts(items: seq<BalanceItem>): (r: seq<real>)
    ensures |r| == |items|
    ensures forall i :: 0 <= i < |items| ==> r[i] == items[i].amount
  {
    seq(|items|, i requires 0 <= i < |items| => items[i].amount)
  }

  /** `list?.reduce((sum, b) => sum + b.amount, 0) || 0`. */
  function ListTotal(items: Option<seq<BalanceItem>>): real
  {
    match items
    case Some(xs) => Sum(Amounts(xs))
    case None => 0.0
  }

  /** The "You Owe" total; with positive lines it is zero exactly when nobody is listed. */
  function TotalOwing(b: Option<Balances>): (t: real)
    ensures b.None? ==> t == 0.0
    ensures b.Some? && PositiveLines(b.value.owes) ==>
      t >= 0.0 && (t == 0.0 <==> ListCount(b.value.owes) == 0)
  {
    if b.Some? then
      if PositiveLines(b.value.owes) then PositiveTotalIsZeroIffEmpty(b.value.owes); ListTotal(b.value.owes)
      else ListTotal(b.value.owes)
    else 0.0
  }

  /** The "You Are Owed" total; with positive lines it is zero exactly when nobody is listed. */
  function TotalOwed(b: Option<Balances>): (t: real)
    ensures b.None? ==> t == 0.0
    ensures b.Some? && PositiveLines(b.value.owedBy) ==>
      t >= 0.0 && (t == 0.0 <==> ListCount(b.value.owedBy) == 0)
  {
    if b.Some? then
      if PositiveLines(b.value.owedBy) then PositiveTotalIsZeroIffEmpty(b.value.owedBy); ListTotal(b.value.owedBy)
      else ListTotal(b.value.owedBy)
    else 0.0
  }

  /** `list?.length || 0`: the number of people on a card. */
  function ListCount(items: Option<seq<BalanceItem>>): (n: nat)
    ensures items.None? ==> n == 0
    ensures items.Some? ==> n == |items.value|
  {
    match items
    case Some(xs) => |xs|
    case None => 0
  }

  function OwingCount(b: Option<Balances>): nat
  {
    if b.Some? then ListCount(b.value.owes) else 0
  }

  function OwedCount(b: Option<Balances>): nat
  {
    if b.Some? then ListCount(b.value.owedBy) else 0
  }

  /** The "All Settled Up" card shows when both totals are zero. */
  predicate AllSettled(b: Option<Balances>)
  {
    TotalOwing(b) == 0.0 && TotalOwed(b) == 0.0
  }

  /** The net-balance card: its sign, its caption, and the magnitude it prints. */
  datatype NetCard = NetCard(sign: char, caption: string, magnitude: real)

  /** `net >= 0` chooses `+` and "You get back", otherwise `-` and "You owe
      overall"; an absent net compares false. The magnitude is `|net || 0|`. */
  function NetBalanceCard(b: Option<Balances>): (c: NetCard)
    ensures c.magnitude >= 0.0
    ensures c.sign == '+' || c.sign == '-'
    ensures c.sign == '+' <==> b.Some? && b.value.netBalance.Some? && b.value.netBalance.value >= 0.0
    ensures c.sign == '+' <==> c.caption == "You get back"
    ensures c.sign == '-' <==> c.caption == "You owe overall"
    ensures b.Some? && b.value.netBalance.Some? ==>
      c.magnitude == (if b.value.netBalance.value >= 0.0 then 1.0 else -1.0) * b.value.netBalance.value
    ensures !(b.Some? && b.value.netBalance.Some?) ==> c.magnitude == 0.0
  {
    var net := if b.Some? then b.value.netBalance else None;
    var shown := OrZero(net);
    var magnitude := if shown >= 0.0 then shown else -shown;
    if net.Some? && net.value >= 0.0 then NetCard('+', "You get back", magnitude)
    else NetCard('-', "You owe overall", magnitude)
  }

  /** Every line the server lists carries a positive amount. */
  predicate PositiveLines(items: Option<seq<BalanceItem>>)
  {
    items.Some? ==> forall i :: 0 <= i < |items.value| ==> items.value[i].amount > 0.0
  }

  lemma {:induction false} PositiveTotalIsZeroIffEmpty(items: Option<seq<BalanceItem>>)
    requires PositiveLines(items)
    ensures ListTotal(items) >= 0.0
    ensures ListTotal(items) == 0.0 <==> ListCount(items) == 0
  {
    if items.Some? {
      var amounts := Amounts(items.value);
      SumNonNegativeZero(amounts);
      if |amounts| > 0 {
        assert amounts[0] > 0.0;
      }
    }
  }

  /** With positive lines, the "All Settled Up" card shows exactly when both
      counts are zero: nobody is owed and nobody is owing. */
  lemma AllSettledIffNoCounterparties(b: Option<Balances>)
    requires b.Some? ==> PositiveLines(b.value.owes) && PositiveLines(b.value.owedBy)
    ensures AllSettled(b) <==> OwingCount(b) == 0 && OwedCount(b) == 0
  {
    if b.Some? {
      PositiveTotalIsZeroIffEmpty(b.value.owes);
      PositiveTotalIsZeroIffEmpty(b.value.owedBy);
    }
  }

  /** When loading failed the page still shows zero totals, the "All Settled Up"
      card and a net of `-$0.00` captioned "You owe overall". */
  lemma FailedLoadLooksSettled()
    ensures AllSettled(None) && OwingCount(None) == 0 && OwedCount(None) == 0
    ensures NetBalanceCard(None) == NetCard('-', "You owe overall", 0.0)
  {
  }

  /** If the server's net is the owed total minus the owing total, the sign of the
      card says which total is larger. */
  lemma NetCardAgreesWithTotals(b: Balances)
    requires b.netBalance == Some(TotalOwed(Some(b)) - TotalOwing(Some(b)))
    ensures NetBalanceCard(Some(b)).sign == '+' <==> TotalOwed(Some(b)) >= TotalOwing(Some(b))
    ensures NetBalanceCard(Some(b)).magnitude ==
      if TotalOwed(Some(b)) >= TotalOwing(Some(b)) then TotalOwed(Some(b)) - TotalOwing(Some(b))
      else TotalOwing(Some(b)) - TotalOwed(Some(b))
  {
  }
}
