/** The bet ledger `playerData`: one record per accepted bet of the current
    round.  Amounts, auto-cashout targets, multipliers and profits are integer
    hundredths ($10.00 is 1000, 2.00x is 200).
 */
module PlayerLedger {

  datatype Option<T> = None | Some(value: T)

  datatype Status = Active | CashedOut | Lost

  datatype Bet = Bet(amount: int, autoCashout: int, profit: int, status: Status)

  /** `x.toFixed(2)` for x given in ten-thousandths (the product of two
      hundredths), read back in hundredths: the nearest hundredth, a tie
      going away from zero as `toFixed` does for negative numbers. */
  function ToFixed2(x: int): (r: int)
    ensures 0 <= x ==> 0 <= r && -50 <= x - 100 * r < 50
    ensures x < 0 ==> r <= 0 && -50 < x - 100 * r <= 50
  {
    if x >= 0 then (x + 50) / 100 else -((-x + 50) / 100)
  }

  /** `cashOut`: the bet is marked cashed out and its profit is the GROSS
      payout `betAmount * multiplier` at the multiplier of the moment. */
  function CashOut(b: Bet, m: int): (c: Bet)
    ensures c.status == CashedOut
    ensures c.amount == b.amount && c.autoCashout == b.autoCashout
    ensures 0 <= b.amount * m ==> -50 <= b.amount * m - 100 * c.profit < 50
    ensures b.amount * m < 0 ==> -50 < b.amount * m - 100 * c.profit <= 50
  {
    b.(status := CashedOut, profit := ToFixed2(b.amount * m))
  }

  /** A bet changes only while it is active, and only into a final status;
      what the player staked and asked for never changes. */
  predicate Evolves(b: Bet, c: Bet) {
    c == b || (b.status == Active && c.status != Active
               && c.amount == b.amount && c.autoCashout == b.autoCashout)
  }

  /** The ledger keeps its entries and each of them evolves. */
  predicate LedgerEvolves(bs: seq<Bet>, cs: seq<Bet>) {
    |bs| == |cs| && forall i :: 0 <= i < |bs| ==> Evolves(bs[i], cs[i])
  }

  /** Whether the auto-cashout test of the tick body fires for `b`. */
  predicate Due(b: Bet, m: int) {
    b.status == Active && m >= b.autoCashout
  }

  /** The auto-cashout loop of the tick body at multiplier `m`. */
  function AutoCashOuts(bets: seq<Bet>, m: int): (r: seq<Bet>)
    ensures |r| == |bets|
    ensures forall i :: 0 <= i < |bets| && Due(bets[i], m) ==> r[i] == CashOut(bets[i], m)
    ensures forall i :: 0 <= i < |bets| && !Due(bets[i], m) ==> r[i] == bets[i]
  {
    if bets == [] then []
    else [if Due(bets[0], m) then CashOut(bets[0], m) else bets[0]] + AutoCashOuts(bets[1..], m)
  }

  /** After the loop no bet is still due, every change is an allowed one, and
      a second pass at the same multiplier changes nothing. */
  lemma AutoCashOutsSettlesDue(bets: seq<Bet>, m: int)
    ensures forall i :: 0 <= i < |bets| ==> !Due(AutoCashOuts(bets, m)[i], m)
    ensures LedgerEvolves(bets, AutoCashOuts(bets, m))
    ensures AutoCashOuts(AutoCashOuts(bets, m), m) == AutoCashOuts(bets, m)
  {
  }

  /** The settlement loop of `crashGame`. */
  function Settle(bets: seq<Bet>): (r: seq<Bet>)
    ensures |r| == |bets|
    ensures forall i :: 0 <= i < |bets| ==> r[i].status != Active
    ensures forall i :: 0 <= i < |bets| && bets[i].status != Active ==> r[i] == bets[i]
    ensures forall i :: 0 <= i < |bets| && bets[i].status == Active ==>
              r[i] == bets[i].(status := Lost, profit := -bets[i].amount)
  {
    if bets == [] then []
    else
      var b := bets[0];
      [if b.status == Active then b.(status := Lost, profit := -b.amount) else b] + Settle(bets[1..])
  }

  /** Settlement is an allowed change of every bet, and settling twice is
      settling once. */
  lemma SettleEvolves(bets: seq<Bet>)
    ensures LedgerEvolves(bets, Settle(bets))
    ensures Settle(Settle(bets)) == Settle(bets)
  {
  }

  /** The index of the first active bet, as `playerData.find` returns it. */
  function FirstActive(bets: seq<Bet>): (r: Option<nat>)
    ensures r.Some? ==> r.value < |bets| && bets[r.value].status == Active
    ensures r.Some? ==> forall j :: 0 <= j < r.value ==> bets[j].status != Active
    ensures r.None? ==> forall j :: 0 <= j < |bets| ==> bets[j].status != Active
  {
    if bets == [] then None
    else if bets[0].status == Active then Some(0)
    else match FirstActive(bets[1..])
      case None => None
      case Some(i) => Some(i + 1)
  }

  /** Sum of the profits of the bets in status `s`. */
  function ProfitOf(bets: seq<Bet>, s: Status): int {
    if bets == [] then 0
    else (if bets[0].status == s then bets[0].profit else 0) + ProfitOf(bets[1..], s)
  }

  /** Sum of the stakes of the bets in status `s`. */
  function StakeOf(bets: seq<Bet>, s: Status): int {
    if bets == [] then 0
    else (if bets[0].status == s then bets[0].amount else 0) + StakeOf(bets[1..], s)
  }

  /** Sum of all profits. */
  function TotalProfit(bets: seq<Bet>): int {
    if bets == [] then 0 else bets[0].profit + TotalProfit(bets[1..])
  }

  /** After settlement the round's profits add up to what the cashed-out and
      already lost bets booked, minus every stake that was still riding. */
  lemma {:induction false} SettledTotal(bets: seq<Bet>)
    ensures TotalProfit(Settle(bets))
            == ProfitOf(bets, CashedOut) + ProfitOf(bets, Lost) - StakeOf(bets, Active)
    decreases |bets|
  {
    if bets != [] {
      SettledTotal(bets[1..]);
      assert Settle(bets)[1..] == Settle(bets[1..]);
    }
  }
}
