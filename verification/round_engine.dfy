/** The round engine of `script.js` as a deterministic state machine.

    The globals `gameActive`, `countdownActive`, `multiplier`,
    `crashMultiplier`, `playerData` and `gameHistory` become one immutable
    `Game`; the closure variable `countdown` lives in the `Countdown` phase.
    Every timer callback and every button click is one pure step.
 */
module RoundEngine {
  import opened PlayerLedger
  import CrashDistribution
  import CrashHistory

  const CountdownSeconds := 10
  const StartMultiplier := 100
  /** Below 10.00x a tick adds 0.01, from 10.00x on it adds 0.05. */
  const FastFrom := 1000
  const SlowStep := 1
  const FastStep := 5

  /** `Idle`: after loading, no timer runs until the first bet.
      `Countdown`: `countdownActive`, the countdown interval runs.
      `Running`: `gameActive`, the 100 ms interval runs.
      `Crashed`: neither flag; the one-second restart timeout is pending. */
  datatype Phase = Idle | Countdown(remaining: int) | Running | Crashed

  datatype Game = Game(phase: Phase, multiplier: int, crashPoint: int,
                       bets: seq<Bet>, history: seq<int>)

  /** The state at load time. */
  function Init(): Game {
    Game(Idle, StartMultiplier, 0, [], [])
  }

  /** What `parseFloat` makes of an input field. */
  datatype Input = NaN | Num(value: int)

  /** What a command reports; the source shows the first three as status
      text and returns silently on the last two. */
  datatype Reply = Placed | BetsLocked | InvalidInput | CashedOutBet(index: nat) | NotRunning | NoActiveBet

  datatype Response = Response(game: Game, reply: Reply)

  /** The place-bet click handler. */
  function PlaceBet(g: Game, amount: Input, target: Input): (r: Response)
    ensures g.phase == Running ==> r == Response(g, BetsLocked)
    ensures g.phase != Running && (amount.NaN? || target.NaN?) ==> r == Response(g, InvalidInput)
    ensures r.reply == Placed <==> g.phase != Running && amount.Num? && target.Num?
    ensures r.reply == Placed ==>
              && r.game.bets == g.bets + [Bet(amount.value, target.value, 0, Active)]
              && r.game.phase == (if g.phase.Countdown? then g.phase else Countdown(CountdownSeconds))
              && r.game.(phase := g.phase, bets := g.bets) == g
  {
    if g.phase == Running then Response(g, BetsLocked)
    else if amount.NaN? || target.NaN? then Response(g, InvalidInput)
    else
      var bets := g.bets + [Bet(amount.value, target.value, 0, Active)];
      // the first bet after load or after a crash starts the countdown
      var phase := if g.phase.Countdown? then g.phase else Countdown(CountdownSeconds);
      Response(g.(phase := phase, bets := bets), Placed)
  }

  /** The cash-out click handler: the first active bet is paid out at the
      current multiplier. */
  function ManualCashOut(g: Game): (r: Response)
    ensures g.phase != Running ==> r == Response(g, NotRunning)
    ensures g.phase == Running && (forall j :: 0 <= j < |g.bets| ==> g.bets[j].status != Active)
            ==> r == Response(g, NoActiveBet)
    ensures g.phase == Running && (exists j :: 0 <= j < |g.bets| && g.bets[j].status == Active)
            ==> r.reply.CashedOutBet?
    ensures r.reply.CashedOutBet? ==>
              && g.phase == Running
              && var i := r.reply.index;
              && i < |g.bets| && g.bets[i].status == Active
              && (forall j :: 0 <= j < i ==> g.bets[j].status != Active)
              && r.game == g.(bets := g.bets[i := CashOut(g.bets[i], g.multiplier)])
    ensures LedgerEvolves(g.bets, r.game.bets)
  {
    if g.phase != Running then Response(g, NotRunning)
    else match FirstActive(g.bets)
      case None => Response(g, NoActiveBet)
      case Some(i) =>
        Response(g.(bets := g.bets[i := CashOut(g.bets[i], g.multiplier)]), CashedOutBet(i))
  }

  /** `resetGame` followed by `startGame`, with the two random draws. */
  function StartRound(g: Game, u1: real, u2: real): (h: Game)
    requires CrashDistribution.IsDraw(u1) && CrashDistribution.IsDraw(u2)
    ensures h.phase == Running && h.multiplier == StartMultiplier
    ensures h.crashPoint == CrashDistribution.CrashPoint(u1, u2) && h.crashPoint >= 100
    ensures h.bets == g.bets && h.history == g.history
  {
    g.(phase := Running, multiplier := StartMultiplier,
       crashPoint := CrashDistribution.CrashPoint(u1, u2))
  }

  /** One second of the countdown interval. */
  function CountdownTick(g: Game, u1: real, u2: real): (h: Game)
    requires g.phase.Countdown?
    requires CrashDistribution.IsDraw(u1) && CrashDistribution.IsDraw(u2)
    ensures h.bets == g.bets && h.history == g.history
    ensures g.phase.remaining - 1 > 0 ==> h == g.(phase := Countdown(g.phase.remaining - 1))
    ensures g.phase.remaining - 1 <= 0 ==>
              && h.phase == Running && h.multiplier == 100
              && h.crashPoint == CrashDistribution.CrashPoint(u1, u2) && h.crashPoint >= 100
  {
    var left := g.phase.remaining - 1;
    if left <= 0 then StartRound(g, u1, u2) else g.(phase := Countdown(left))
  }

  /** The increment of one climbing tick. */
  function Increment(m: int): (d: int)
    ensures d > 0
    ensures m < FastFrom ==> d == 1
    ensures m >= FastFrom ==> d == 5
  {
    if m < FastFrom then SlowStep else FastStep
  }

  /** `crashGame`: the crash point joins the history, active bets are lost
      and the ledger is cleared.  `settled` is the ledger as the player table
      last shows it. */
  datatype TickResult = Climb(next: Game) | Crash(settled: seq<Bet>, next: Game)

  /** One 100 ms tick of the round: first the crash check, then the
      increment, then the auto-cashouts at the new multiplier. */
  function GameTick(g: Game): (r: TickResult)
    requires g.phase == Running
    ensures r.Crash? <==> g.multiplier >= g.crashPoint
    ensures r.Crash? ==>
              && r.next.phase == Crashed && r.next.bets == []
              && r.next.multiplier == g.multiplier && r.next.crashPoint == g.crashPoint
              && r.next.history == CrashHistory.Push(g.history, g.crashPoint)
              && r.settled == Settle(g.bets)
    ensures r.Climb? ==>
              && r.next.phase == Running
              && r.next.multiplier == g.multiplier + (if g.multiplier < 1000 then 1 else 5)
              && r.next.crashPoint == g.crashPoint && r.next.history == g.history
              && r.next.bets == AutoCashOuts(g.bets, r.next.multiplier)
  {
    if g.multiplier >= g.crashPoint then
      Crash(Settle(g.bets),
            g.(phase := Crashed, bets := [], history := CrashHistory.Push(g.history, g.crashPoint)))
    else
      var m := g.multiplier + Increment(g.multiplier);
      Climb(g.(multiplier := m, bets := AutoCashOuts(g.bets, m)))
  }

  /** The restart timeout, one second after the crash: `startCountdown`. */
  function Restart(g: Game): (h: Game)
    requires g.phase == Crashed
    ensures h.phase == Countdown(CountdownSeconds)
    ensures h.(phase := Crashed) == g
  {
    g.(phase := Countdown(CountdownSeconds))
  }

  /** Everything that can happen to the game. */
  datatype Event =
    | PlaceBetClick(amount: Input, target: Input)
    | CashOutClick
    | CountdownSecond(u1: real, u2: real)
    | RoundTick
    | RestartTimeout

  predicate WellFormed(e: Event) {
    e.CountdownSecond? ==> CrashDistribution.IsDraw(e.u1) && CrashDistribution.IsDraw(e.u2)
  }

  /** Whether the place-bet button takes clicks: `startGame` disables it and
      only `startCountdown` enables it again, so it stays disabled from the
      start of a round until the countdown after the crash. */
  predicate PlaceBetEnabled(p: Phase) {
    p.Idle? || p.Countdown?
  }

  /** A click on a disabled button, or a timer event whose timer does not
      exist in the current phase, leaves the game as it is. */
  function Next(g: Game, e: Event): Game
    requires WellFormed(e)
  {
    match e
    case PlaceBetClick(a, t) => if PlaceBetEnabled(g.phase) then PlaceBet(g, a, t).game else g
    case CashOutClick => ManualCashOut(g).game
    case CountdownSecond(u1, u2) => if g.phase.Countdown? then CountdownTick(g, u1, u2) else g
    case RoundTick => if g.phase == Running then GameTick(g).next else g
    case RestartTimeout => if g.phase == Crashed then Restart(g) else g
  }

  /** What holds of every reachable game. */
  predicate Valid(g: Game) {
    && |g.history| <= CrashHistory.Capacity
    && (forall i :: 0 <= i < |g.history| ==> g.history[i] >= 100)
    && match g.phase
       case Idle => g.bets == []
       case Crashed => g.bets == []
       case Countdown(n) =>
         && 1 <= n <= CountdownSeconds
         && forall i :: 0 <= i < |g.bets| ==> g.bets[i].status == Active && g.bets[i].profit == 0
       case Running =>
         && 100 <= g.multiplier < g.crashPoint + FastStep
         && g.crashPoint >= 100
         && forall i :: 0 <= i < |g.bets| ==>
              (g.bets[i].status == Active && g.bets[i].profit == 0) || g.bets[i].status == CashedOut
  }
}
