/** Properties of the round engine over one step and over runs of steps. */
module RoundProperties {
  import opened PlayerLedger
  import CrashDistribution
  import CrashHistory
  import opened RoundEngine

  /** A run of events from a given state. */
  function Run(g: Game, es: seq<Event>): Game
    requires forall i :: 0 <= i < |es| ==> WellFormed(es[i])
    decreases |es|
  {
    if es == [] then g else Run(Next(g, es[0]), es[1..])
  }

  /** `n` ticks of the 100 ms interval (no-ops once the round is over). */
  function Ticks(g: Game, n: nat): Game
    decreases n
  {
    if n == 0 then g else Ticks(Next(g, RoundTick), n - 1)
  }

  /** `n` seconds of the countdown interval; the draws are used by the
      second that starts the round. */
  function Seconds(g: Game, n: nat, u1: real, u2: real): Game
    requires CrashDistribution.IsDraw(u1) && CrashDistribution.IsDraw(u2)
    decreases n
  {
    if n == 0 then g else Seconds(Next(g, CountdownSecond(u1, u2)), n - 1, u1, u2)
  }

  lemma InitValid()
    ensures Valid(Init())
  {
  }

  /** A push of a crash point of at least 1.00x keeps the history bounded and
      made of such points. */
  lemma PushKeepsHistoryValid(h: seq<int>, p: int)
    requires |h| <= CrashHistory.Capacity && forall i :: 0 <= i < |h| ==> h[i] >= 100
    requires p >= 100
    ensures |CrashHistory.Push(h, p)| <= CrashHistory.Capacity
    ensures forall i :: 0 <= i < |CrashHistory.Push(h, p)| ==> CrashHistory.Push(h, p)[i] >= 100
  {
  }

  /** Every step keeps the game valid. */
  lemma NextPreservesValid(g: Game, e: Event)
    requires Valid(g) && WellFormed(e)
    ensures Valid(Next(g, e))
  {
    match e
    case RoundTick =>
      if g.phase == Running && g.multiplier >= g.crashPoint {
        PushKeepsHistoryValid(g.history, g.crashPoint);
      }
    case _ =>
  }

  /** Every reachable game is valid. */
  lemma {:induction false} RunPreservesValid(g: Game, es: seq<Event>)
    requires Valid(g)
    requires forall i :: 0 <= i < |es| ==> WellFormed(es[i])
    ensures Valid(Run(g, es))
    decreases |es|
  {
    if es != [] {
      NextPreservesValid(g, es[0]);
      RunPreservesValid(Next(g, es[0]), es[1..]);
    }
  }

  /** The game does not count down at load: only an accepted bet moves it out
      of `Idle`, and then into a full countdown. */
  lemma IdleUntilFirstBet(e: Event)
    requires WellFormed(e)
    ensures Next(Init(), e).phase != Idle <==> e.PlaceBetClick? && e.amount.Num? && e.target.Num?
    ensures Next(Init(), e).phase != Idle ==> Next(Init(), e).phase == Countdown(10)
  {
  }

  /** After a crash the game waits for the restart timeout: the place-bet
      button is disabled and no other event leaves the `Crashed` phase, so a
      single countdown follows each crash. */
  lemma CrashedWaitsForRestart(g: Game, e: Event)
    requires g.phase == Crashed && WellFormed(e)
    ensures !e.RestartTimeout? ==> Next(g, e) == g
    ensures e.RestartTimeout? ==> Next(g, e) == g.(phase := Countdown(10))
  {
  }

  /** Outside a crash, no step takes back or rewrites a settled bet: existing
      bets keep their place and only evolve; new ones are appended. */
  lemma BetsOnlyEvolve(g: Game, e: Event)
    requires WellFormed(e)
    requires !(e.RoundTick? && g.phase == Running && g.multiplier >= g.crashPoint)
    ensures |g.bets| <= |Next(g, e).bets|
    ensures LedgerEvolves(g.bets, Next(g, e).bets[..|g.bets|])
    ensures forall i :: 0 <= i < |g.bets| ==>
              Next(g, e).bets[i] == g.bets[i] || Next(g, e).bets[i].status == CashedOut
  {
  }

  /** A crash settles the ledger without reversing any decided bet. */
  lemma CrashOnlyEvolves(g: Game)
    requires g.phase == Running && g.multiplier >= g.crashPoint
    ensures LedgerEvolves(g.bets, GameTick(g).settled)
    ensures forall i :: 0 <= i < |g.bets| ==> GameTick(g).settled[i].status != Active
    ensures forall i :: 0 <= i < |g.bets| && g.bets[i].status == Active ==>
              GameTick(g).settled[i] == g.bets[i].(status := Lost, profit := -g.bets[i].amount)
  {
  }

  /** While the round runs, every tick has added at least 0.01. */
  lemma {:induction false} ClimbsEveryTick(g: Game, n: nat)
    requires g.phase == Running
    ensures Ticks(g, n).phase == Running ==> Ticks(g, n).multiplier >= g.multiplier + n
    ensures Ticks(g, n).phase in {Running, Crashed}
    decreases n
  {
    if n > 0 {
      var g' := Next(g, RoundTick);
      if g'.phase == Running {
        ClimbsEveryTick(g', n - 1);
      } else {
        StaysCrashed(g', n - 1);
      }
    }
  }

  lemma {:induction false} StaysCrashed(g: Game, n: nat)
    requires g.phase == Crashed
    ensures Ticks(g, n) == g
    decreases n
  {
    if n > 0 {
      StaysCrashed(Next(g, RoundTick), n - 1);
    }
  }

  /** Every round crashes: after one more tick than the distance from the
      multiplier to the crash point, the game has crashed. */
  lemma {:induction false} RoundEnds(g: Game, n: nat)
    requires g.phase == Running
    requires n > g.crashPoint - g.multiplier && n >= 1
    ensures Ticks(g, n).phase == Crashed
    decreases n
  {
    var g' := Next(g, RoundTick);
    if g'.phase == Running {
      RoundEnds(g', n - 1);
    } else {
      StaysCrashed(g', n - 1);
    }
  }

  /** One tick below 10.00x and below the crash point, seen from one bet:
      the multiplier gains 0.01 and the bet is cashed out if it is due. */
  lemma TickOnBet(g: Game, i: nat)
    requires g.phase == Running && i < |g.bets|
    requires g.multiplier < g.crashPoint && g.multiplier < 1000
    ensures var g' := Next(g, RoundTick);
            && g'.phase == Running
            && g'.multiplier == g.multiplier + 1 && g'.crashPoint == g.crashPoint
            && |g'.bets| == |g.bets|
            && g'.bets[i] == if Due(g.bets[i], g'.multiplier) then CashOut(g.bets[i], g'.multiplier)
                             else g.bets[i]
  {
  }

  /** Below 10.00x an auto-cashout fires on exactly the tick that reaches its
      target, before the crash, and books the gross payout at the target. */
  lemma {:induction false} AutoCashoutAtTarget(g: Game, i: nat)
    requires g.phase == Running
    requires i < |g.bets| && g.bets[i].status == Active
    requires g.multiplier < g.bets[i].autoCashout <= g.crashPoint
    requires g.bets[i].autoCashout <= 1000
    ensures var h := Ticks(g, g.bets[i].autoCashout - g.multiplier);
            && h.phase == Running
            && h.multiplier == g.bets[i].autoCashout
            && i < |h.bets|
            && h.bets[i] == CashOut(g.bets[i], g.bets[i].autoCashout)
    decreases g.bets[i].autoCashout - g.multiplier
  {
    var t := g.bets[i].autoCashout;
    var g' := Next(g, RoundTick);
    TickOnBet(g, i);
    assert Ticks(g, t - g.multiplier) == Ticks(g', t - g'.multiplier);
    if g'.multiplier < t {
      AutoCashoutAtTarget(g', i);
    }
  }

  /** A $10.00 bet with a 2.00x target in a round that crashes at 3.50x is
      cashed out a hundred ticks in with a recorded profit of $20.00: the
      gross payout, not the net $10.00. */
  lemma TenDollarsAtTwo()
    ensures var g := Game(Running, 100, 350, [Bet(1000, 200, 0, Active)], []);
            Ticks(g, 100).bets == [Bet(1000, 200, 2000, CashedOut)]
  {
    var g := Game(Running, 100, 350, [Bet(1000, 200, 0, Active)], []);
    AutoCashoutAtTarget(g, 0);
    var h := Ticks(g, 100);
    assert |h.bets| == 1 by {
      TicksKeepLedgerSize(g, 100);
    }
  }

  lemma {:induction false} TicksKeepLedgerSize(g: Game, n: nat)
    requires g.phase == Running
    ensures Ticks(g, n).phase == Running ==> |Ticks(g, n).bets| == |g.bets|
    decreases n
  {
    if n > 0 {
      var g' := Next(g, RoundTick);
      if g'.phase == Running {
        TicksKeepLedgerSize(g', n - 1);
      } else {
        StaysCrashed(g', n - 1);
      }
    }
  }

  /** From 10.00x on, the auto-cashout pays at the tick value, which can
      overshoot the target: a 10.02x target is paid at 10.05x. */
  lemma OvershootAboveTen()
    ensures var g := Game(Running, 1000, 2000, [Bet(1000, 1002, 0, Active)], []);
            Next(g, RoundTick).bets == [Bet(1000, 1002, 10050, CashedOut)]
  {
  }

  /** A countdown of `n` seconds launches the round on its `n`-th second with
      the multiplier back at 1.00x and the bets placed during it. */
  lemma {:induction false} CountdownLaunches(g: Game, n: nat, u1: real, u2: real)
    requires g.phase == Countdown(n) && n >= 1
    requires CrashDistribution.IsDraw(u1) && CrashDistribution.IsDraw(u2)
    ensures forall k :: 0 <= k < n ==> Seconds(g, k, u1, u2) == g.(phase := Countdown(n - k))
    ensures var h := Seconds(g, n, u1, u2);
            && h.phase == Running && h.multiplier == 100
            && h.crashPoint == CrashDistribution.CrashPoint(u1, u2)
            && h.bets == g.bets && h.history == g.history
    decreases n
  {
    var g' := Next(g, CountdownSecond(u1, u2));
    if n > 1 {
      CountdownLaunches(g', n - 1, u1, u2);
      forall k | 0 <= k < n
        ensures Seconds(g, k, u1, u2) == g.(phase := Countdown(n - k))
      {
        if k > 0 {
          assert Seconds(g, k, u1, u2) == Seconds(g', k - 1, u1, u2);
        }
      }
    }
  }
}
