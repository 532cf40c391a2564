# Crash game round engine — a Dafny model

The browser game in `script.js` runs "crash" rounds. A multiplier climbs from
1.00x and the round crashes at a crash point drawn at random when the round starts.
Players bet during a countdown and win if they cash out, by hand or by an
auto-cashout target, before the crash. The history bar shows the last ten crash
points, each in a colour.

This project models the game logic of `script.js` without its DOM and audio code.
It is a deterministic state machine over integer hundredths: 1.00x is `100` and
$10.00 is `1000`.

- `crash_distribution.dfy` (`CrashDistribution`): `calculateCrashMultiplier`.
  The two `Math.random()` draws are parameters. `toFixed(2)` is modelled as
  rounding to the nearest hundredth.
- `crash_history.dfy` (`CrashHistory`): the ten-entry FIFO of `updateCrashHistory`
  and the colour of each history item.
- `player_ledger.dfy` (`PlayerLedger`): the `playerData` bets
  `{betAmount, autoCashout, profit, status}`, `cashOut`, the auto-cashout loop,
  crash settlement and the first-active-bet lookup.
- `round_engine.dfy` (`RoundEngine`): the game state, the place-bet and cash-out
  handlers, the countdown tick, `resetGame`/`startGame`, the 100 ms tick with
  `crashGame`, the restart timeout, and one step function `Next` over all events.
- `round_properties.dfy` (`RoundProperties`): properties of runs of steps.

There are four phases. `Idle` is the state after load, when no timer runs.
`Countdown(n)` is when `countdownActive` is true. `Running` is when `gameActive`
is true. `Crashed` covers the one-second wait between `crashGame` and
`startCountdown`. A place-bet click reaches its handler only in `Idle` and
`Countdown`, where the button is enabled. The `Valid` predicate holds of the initial state and every step
preserves it. It says:

- the history has at most ten entries, each at least 1.00x;
- a countdown has 1 to 10 seconds left;
- during a countdown every bet is active with profit 0;
- in a running round, the multiplier lies in [1.00x, crash point + 0.05);
- in a running round, every bet is either untouched or cashed out;
- the ledger is empty when idle and after a crash.

## Model

| member | source | states |
|---|---|---|
| CrashDistribution.ToHundredths | script.js:34-37 | `toFixed(2)` of a non-negative value is its nearest hundredth, with ties rounded up |
| CrashDistribution.CrashPoint | script.js:32-39 | every crash point is at least 1.00x. A roll ≤ 60 gives [1.00, 5.00], ≤ 70 gives [5.00, 20.00], ≤ 75 gives [20.00, 100.00] and ≤ 77 gives [100.00, 1000.00]. Anything above 77 gives exactly 1.01. All band tests are inclusive |
| CrashDistribution.BandIsOnto | script.js:33-38 | every hundredth in a band's range is produced by some second draw, so each band's image is exactly its closed range |
| CrashDistribution.CrashAtOnePossible | script.js:34 | a crash point of exactly 1.00x can be drawn |
| CrashHistory.Push | script.js:42-46 | a push never takes a history of at most 10 entries above 10. The new point is last. Below capacity nothing is dropped; at capacity only the oldest entry goes and the rest keep their order |
| CrashHistory.PushIsLatest | script.js:43-46 | one push leaves exactly the last ten of (old history, new point) |
| CrashHistory.PushAllKeepsLatest | script.js:42-46 | after any number of rounds the history is exactly the ten most recent crash points, oldest first |
| CrashHistory.ColourThresholds | script.js:57-65 | `ColourOf` gives every point exactly one colour: red below 2.00x, green in [2.00, 10.00), light blue in [10.00, 20.00), yellow from 20.00x |
| CrashHistory.ColourMonotone | script.js:57-65 | a higher crash point never gets a lower colour |
| CrashHistory.Colours | script.js:52-65 | the history bar has one item per history entry, in order, each in its point's colour |
| PlayerLedger.ToFixed2 | script.js:238 | `toFixed(2)` of a payout is its nearest hundredth, with ties rounded away from zero; the sign is kept |
| PlayerLedger.CashOut | script.js:236-238 | a cashed-out bet keeps its stake and target, and its profit is the gross `betAmount * multiplier` rounded to the nearest cent, ties away from zero |
| PlayerLedger.AutoCashOuts | script.js:110-114 | a bet that is active with multiplier ≥ target is cashed out at that multiplier. Every other bet, including those already cashed out or lost, is untouched |
| PlayerLedger.AutoCashOutsSettlesDue | script.js:110-114 | after the loop no bet is still due. Every change goes from active to a final status, and a second pass at the same multiplier changes nothing |
| PlayerLedger.Settle | script.js:144-149 | after the crash no bet is active. Each active bet is lost with profit −betAmount; every other bet keeps its status and profit |
| PlayerLedger.SettleEvolves | script.js:144-149 | settlement only moves active bets to a final status, and settling twice is settling once |
| PlayerLedger.SettledTotal | script.js:144-149 | after settlement the profits add up to the cashed-out and lost profits, minus every stake that was still riding |
| PlayerLedger.FirstActive | script.js:230 | the lookup returns the least index of an active bet, or nothing exactly when no bet is active |
| RoundEngine.PlaceBet | script.js:196-224 | during a round the bet is refused and the game is unchanged. A NaN amount or target is refused and the game is unchanged. Otherwise exactly one active bet with profit 0 is appended, a countdown of 10 starts unless one is already running, and nothing else changes |
| RoundEngine.ManualCashOut | script.js:227-234 | outside a round, or with no active bet, nothing changes. Otherwise only the first active bet is cashed out, at the current multiplier |
| RoundEngine.StartRound | script.js:182-193 | `resetGame` followed by `startGame` (script.js:73-77) starts a running round at 1.00x with the drawn crash point, which is at least 1.00x. Bets and history are kept |
| RoundEngine.Increment | script.js:98 | the step of a climbing tick is positive: 0.01 below 10.00x and 0.05 from 10.00x |
| RoundEngine.CountdownTick | script.js:169-178 | one second takes one from the countdown. At zero the round starts at 1.00x with the drawn crash point (at least 1.00x); bets and history are kept |
| RoundEngine.GameTick | script.js:91-115 | a tick crashes exactly when the multiplier has reached the crash point. A crash tick does no increment and no auto-cashout: it settles the bets, clears the ledger and pushes the crash point. Any other tick adds 0.01 below 10.00x or 0.05 from 10.00x, then runs the auto-cashouts at the new multiplier |
| RoundEngine.Restart | script.js:155-164 | one second after a crash a full countdown starts and nothing else changes |
| RoundProperties.InitValid | script.js:1-6 | the state at load is valid |
| RoundProperties.NextPreservesValid | script.js:91-234 | every event keeps the game valid |
| RoundProperties.RunPreservesValid | script.js:91-234 | every game reachable by a run of events is valid |
| RoundProperties.IdleUntilFirstBet | script.js:196-223 | after load nothing counts down. The game leaves the idle state exactly when a bet is accepted, and then into a 10-second countdown |
| RoundProperties.CrashedWaitsForRestart | script.js:83-167 | after a crash, every event except the restart timeout leaves the game unchanged, because the place-bet button stays disabled. The timeout starts a 10-second countdown |
| RoundProperties.BetsOnlyEvolve | script.js:196-241 | outside a crash no event removes, reorders or reverses a bet. An existing bet either stays as it is or is cashed out, keeping its stake and target, and new bets are appended |
| RoundProperties.CrashOnlyEvolves | script.js:143-149 | a crash leaves no bet active. Each active bet becomes lost with profit −betAmount, and no decided bet is reversed |
| RoundProperties.ClimbsEveryTick | script.js:92-98 | while the round runs, the multiplier after n ticks is at least 0.01·n higher: it strictly increases within a round |
| RoundProperties.RoundEnds | script.js:91-95 | every round crashes within one tick more than the distance from the multiplier to the crash point |
| RoundProperties.TickOnBet | script.js:92-114 | one tick below 10.00x and below the crash point adds exactly 0.01 and keeps the round running. A given bet is cashed out at the new multiplier if it is due, and is otherwise unchanged |
| RoundProperties.AutoCashoutAtTarget | script.js:98-114 | below 10.00x, an active bet whose target is at most the crash point is cashed out on exactly the tick that reaches the target. It is paid at the target, and the round is still running then |
| RoundProperties.TenDollarsAtTwo | script.js:236-238 | a $10 bet with target 2.00x in a round crashing at 3.50x records a profit of $20.00, the gross payout |
| RoundProperties.OvershootAboveTen | script.js:98-114 | from 10.00x on, an auto-cashout is paid at the tick value: a 10.02x target is paid at 10.05x |
| RoundProperties.CountdownLaunches | script.js:169-192 | a countdown of n seconds stays in countdown for n−1 seconds. The n-th second starts the round at 1.00x with the drawn crash point, the same bets and the same history |

## Left out

- Rendering is not modelled: smoke, rocket position, status text, button states, the player table and creating history-bar elements. It is presentation only. `Reply` stands for the status text.
- Audio (`rocketSound`, `explosionSound`) is not modelled.
- Real timers are not modelled. Each `setInterval`/`setTimeout` callback is one explicit event of `Next`, and the 100 ms and 1 s cadences are not represented.
- Of the button states, only the place-bet button's is modelled (`PlaceBetEnabled`), because it decides which clicks reach the handler. The model assumes the button is enabled at load; the page markup that sets its initial state is not part of this model. The cash-out button is not modelled: its handler already ignores clicks outside a round (script.js:228).
- `Math.random` is a pair of parameters in [0, 1). The band frequencies (60/10/5/2/23 %) are statistical and are not stated.
- Floating point is not modelled. Multipliers are exact hundredths, so the drift of repeated `+= 0.01` does not appear. `toFixed` is exact rounding of exact values. The string/number coercions of `crashMultiplier` and `profit` are not modelled.
- `parseFloat` is abstracted to `Input`: `NaN` or a value in whole hundredths. Inputs with more than two decimals, `Infinity`, and partially numeric text are not modelled.
- `Colours` models only the colour choice of each history item; the label text `toFixed(2)` is not modelled.

## Behaviour worth knowing

- The band tests are inclusive: `roll <= 60`, `<= 70`, `<= 75`, `<= 77` (script.js:34-37).
- The lowest crash point is 1.00x (script.js:34, `CrashAtOnePossible`). A round with that crash point crashes on its first tick (script.js:92).
- `cashOut` records the gross `betAmount * multiplier` as profit, at the multiplier of the current tick (script.js:238). An auto-cashout above 10.00x can be paid above its target (`TenDollarsAtTwo`, `OvershootAboveTen`).
- Auto-cashouts run after the increment, and the crash check runs before it, so a crashing tick does no auto-cashout (script.js:92-114).
- Nothing counts down at load. The first accepted bet starts the countdown (script.js:220-223).
- Place-bet rejects NaN inputs only (script.js:205). A zero or negative amount, or a target below 1.00x, is accepted. The auto-cashout field must hold a number.
- Manual cash-out pays the first active bet of the ledger (script.js:230). Bets carry no player identity.
- The place-bet button is disabled from the start of a round (script.js:83) until the next countdown starts (script.js:167). No bet can be placed in the second between the crash and the countdown, so each crash is followed by exactly one countdown (`CrashedWaitsForRestart`).
