# Verification of lumiere-backend's core state machines

A Dafny model of the parts of lumiere-backend that hold money or guard calls, with proofs
about whole runs. `dafny verify dfyconfig.toml` checks everything.

* **Escrow program** (`EscrowState`, `EscrowSpec`, `EscrowProgram`, `EscrowEffects`,
  `EscrowEnabling`, `EscrowErrors`, `EscrowInvariants`, `EscrowTraces`, `EscrowExit`,
  `EscrowFullExit`, `EscrowStranding`). The fourteen instruction handlers over a mutable
  account object, run by a `Runtime` that stores the account again only after a success,
  each proved against a specification on values; the token accounts of the mint are a
  ledger. Proved: exactly when each instruction commits, what it leaves behind and which
  error it reports otherwise; over all runs, flags mirror authorities, conservation, dead
  overflow branches, the time-lock, what a pause freezes, and exactly when the owner can get
  everything out.
* **Circuit breaker** (`Breaker`, `BreakerHistory`, `BreakerCalls`, `BreakerOutcomes`). The
  lock is released while the protected function runs, so begin and end of a call are
  separate steps. The counters refine a machine that keeps only logs of admissions and
  outcomes; calls in flight are accounted for under every interleaving; exactly when
  HALF_OPEN can wedge, and when the breaker always finds its way back to CLOSED, is
  determined.
* **Token bucket and Courier limits** (`RealArith`, `TokenBucket`, `TokenBucketRuns`,
  `CourierLimits`, `CourierBound`, `CourierCollisions`, `CourierExact`). Real arithmetic
  stands for the floats. The level in closed form, the window bound, observation
  independence, the waiting loop, exactly which checks are accepted and which clients the
  registry limits.
* **Codecs** (`AccountCodec`, `InstructionCodec`, `BridgeView`). The bridge's reader and the
  stored form of the account (Borsh: little-endian integers, fixed arrays, struct fields in
  order) are inverse to each other; instruction data is unambiguous. `BridgeView` follows a
  reachable account through both.
* **Retry** (`Retry`), **connections** (`Connections`, `ConnectionIndex`), **indicator
  history** (`History`, `HistoryWindow`) and **positions** (`Position`), each against a
  sequence-level specification.

`Machine` has the fixed-width integers, `MapSum` sums over maps.

Where the clock, a random draw, the outcome of a called function or the answer of the token
program matters, it is a parameter. Findings worth knowing:

* The release profile keeps overflow checks on (`smart_contracts/Cargo.toml:8`), so a
  timestamp subtraction that leaves i64 aborts the transaction; the model has that error.
* Tokens sent to the escrow from outside bypass `max_balance` and are not counted as
  deposits, so the withdrawal counter can fill up. The owner's withdrawal handlers then
  refuse (`EscrowExit.OwnerExit`), but the owner can still delegate to himself and take the
  rest through the roles' counters (`EscrowFullExit.ExitPossibleIff`). When all three are
  full, what is left can only vanish with a close (`EscrowStranding.TokensCanStrand`).
* The breaker wedges in HALF_OPEN when it asks for more successes than it admits probes, and
  under every configuration when outcomes are not counted
  (`BreakerCalls.WedgesIffThresholdUnreachable`, `BreakerCalls.UncountedOutcomesWedge`).
  With `half_open_max_calls` below one, one probe is still admitted.
* Courier's documentation speaks of per-message-type limits; each typed check installs a
  full bucket first and so limits nothing (`CourierBound.TypedChecksUnlimited`). A typed key
  can also coincide with another client's identifier. The default limit binds exactly the
  clients for which no such message type has a limit of at least one
  (`CourierCollisions.LimitedIff`); the others get any number of checks accepted in one
  instant (`CourierCollisions.KeysCollide`).
* The trailing stop has its closed form up to 100 percent for a long position and from -100
  percent for a short one, except at zero percent, which means no trailing stop
  (`Position.ClosedFormIff`).
* A negative delay makes the blocking retry loop end with the error of the sleep instead of
  another attempt; the asynchronous loop goes on (`Retry.BlockingAgreesIff`).
* A channel name may end in one newline, which the documented naming rules do not mention;
  the names accepted against these rules are exactly those (`Connections.StrayNewline`).

## Model

| member | source | states |
|---|---|---|
| EscrowProgram.Runtime.Process | smart_contracts/programs/escrow/src/lib.rs:17-730 | one transaction commits all of its effects or none: the stored state afterwards is the specified next state, and the reported error is the specified one |
| EscrowProgram.Runtime.TokenTransfer | smart_contracts/programs/escrow/src/lib.rs:142-148 | an atomic move between two token accounts, or an error and no move |
| EscrowProgram.Runtime.InitializeEscrow | smart_contracts/programs/escrow/src/lib.rs:27-90 | creates the account with no authority and the default or requested limit; refuses a limit above the allowed one and unsupported decimals |
| EscrowProgram.Runtime.DepositToken | smart_contracts/programs/escrow/src/lib.rs:99-158 | the specified outcome in every case, with the errors in the order of the checks |
| EscrowProgram.Runtime.DelegatePlatformAuthority | smart_contracts/programs/escrow/src/lib.rs:167-206 | sets key, flag and activation time together, or fails with the first failing check |
| EscrowProgram.Runtime.DelegateTradingAuthority | smart_contracts/programs/escrow/src/lib.rs:215-254 | the same for the trading role, by the same role-generic specification |
| EscrowProgram.Runtime.RevokePlatformAuthority | smart_contracts/programs/escrow/src/lib.rs:260-285 | clears key, flag and activation time together unless paused |
| EscrowProgram.Runtime.RevokeTradingAuthority | smart_contracts/programs/escrow/src/lib.rs:291-316 | the same for the trading role |
| EscrowProgram.Runtime.WithdrawFee | smart_contracts/programs/escrow/src/lib.rs:325-395 | only the mature platform key, within the cap and the balance; counter and ledger move together |
| EscrowProgram.Runtime.WithdrawTrade | smart_contracts/programs/escrow/src/lib.rs:404-474 | the same for the trading role |
| EscrowProgram.Runtime.WithdrawToken | smart_contracts/programs/escrow/src/lib.rs:482-543 | the owner's withdrawal, refused while paused or while an authority is active |
| EscrowProgram.Runtime.EmergencyWithdrawal | smart_contracts/programs/escrow/src/lib.rs:551-601 | the same exit for a paused escrow |
| EscrowProgram.Runtime.PauseEscrow | smart_contracts/programs/escrow/src/lib.rs:604-621 | sets the pause flag and restarts the cooldown, also when already paused |
| EscrowProgram.Runtime.UnpauseEscrow | smart_contracts/programs/escrow/src/lib.rs:627-651 | lifts the pause once the cooldown is over |
| EscrowProgram.Runtime.SetLifetime | smart_contracts/programs/escrow/src/lib.rs:654-670 | any non-negative lifetime |
| EscrowProgram.Runtime.CloseEscrow | smart_contracts/programs/escrow/src/lib.rs:678-729 | removes the token account of an escrow without authorities and with at most dust |
| EscrowEnabling.InitializeIff | smart_contracts/programs/escrow/src/lib.rs:27-90 | commits iff there is no account yet, the limit is allowed and the decimals are 6 to 9; every field of the new account |
| EscrowEnabling.DepositIff | smart_contracts/programs/escrow/src/lib.rs:99-158 | commits iff the owner signs with the right mint, the escrow is neither paused nor expired, and the amount is positive, within the owner's tokens, the limit and the counter; the whole next state |
| EscrowEnabling.DelegateIff | smart_contracts/programs/escrow/src/lib.rs:167-254 | either delegation commits iff the owner signs, the escrow is neither paused nor expired, the key is a key and the role is free; the whole next state |
| EscrowEnabling.RevokeIff | smart_contracts/programs/escrow/src/lib.rs:260-316 | either revocation commits iff the owner signs an escrow that is not paused; the whole next state |
| EscrowEnabling.WithdrawFeeIff | smart_contracts/programs/escrow/src/lib.rs:325-395 | commits iff the delegated key of at least 300 s signs, with the amount within 1 000 000 000, the balance and the counter; the whole next state |
| EscrowEnabling.WithdrawForTradeIff | smart_contracts/programs/escrow/src/lib.rs:404-474 | the same for the trading key and 100 000 000 000 |
| EscrowEnabling.OwnerWithdrawalIff | smart_contracts/programs/escrow/src/lib.rs:482-601 | an ordinary, or for a paused escrow an emergency, withdrawal commits iff the owner signs, no key is set, and the amount is positive and within balance and counter; the whole next state |
| EscrowEnabling.PauseIff | smart_contracts/programs/escrow/src/lib.rs:604-651 | pausing commits for the owner at any time, unpausing iff 300 s have passed since the recorded pause; the whole next state |
| EscrowEnabling.SetMaxLifetimeIff | smart_contracts/programs/escrow/src/lib.rs:654-670 | commits iff the owner signs a non-negative lifetime; the whole next state |
| EscrowEnabling.CloseIff | smart_contracts/programs/escrow/src/lib.rs:678-729 | commits iff the owner signs an unpaused escrow without keys, with at most 10 tokens, enough rent and the token program's consent; account and token account are gone |
| EscrowErrors.ErrorIffFirstFailure | smart_contracts/programs/escrow/src/lib.rs:17-730 | in every state of the invariant a transaction is refused iff it fails some check of the table, and with the error of the first check it fails |
| EscrowState.FlagsIndependent | smart_contracts/programs/escrow/src/state.rs:92-147 | setting one of the three flags decides that flag, leaves the other two and the reserved bits alone |
| EscrowState.EscrowAccount.SetPlatformActive | smart_contracts/programs/escrow/src/state.rs:105-112 | the platform getter answers what was set |
| EscrowState.EscrowAccount.SetTradingActive | smart_contracts/programs/escrow/src/state.rs:122-129 | the trading getter answers what was set |
| EscrowState.EscrowAccount.SetPaused | smart_contracts/programs/escrow/src/state.rs:139-147 | the pause getter answers what was set; only pausing moves the timestamp |
| EscrowInvariants.Reachable | smart_contracts/programs/escrow/src/lib.rs:27-729 | every state reachable from genesis keeps the whole invariant: supply, token account, flags, limits, ownership |
| EscrowInvariants.FlagsMirrorAuthorities | smart_contracts/programs/escrow/src/state.rs:92-155 | in every reachable state a role's flag is set iff its key is set, for each role separately, and the upper five bits are zero |
| EscrowInvariants.ActivationMirrorsFlag | smart_contracts/programs/escrow/src/state.rs:175-197 | with positive clock values the flag is set iff the activation time is non-zero |
| EscrowInvariants.OwnerAndRoleExclusive | smart_contracts/programs/escrow/src/lib.rs:491-495 | no reachable state lets the owner and a delegated role both withdraw |
| EscrowInvariants.LedgerConserved | smart_contracts/programs/escrow/src/lib.rs:137-148 | the sum over all token accounts is constant; a close destroys at most the dust |
| EscrowInvariants.Conservation | smart_contracts/programs/escrow/src/lib.rs:115-132 | balance + withdrawn + fees + traded = deposited + outside transfers in every reachable state, and the limit is exceeded by outside transfers at most |
| EscrowInvariants.WithdrawalsNeverOverflow | smart_contracts/programs/escrow/src/lib.rs:356-361 | the checked additions of the four withdrawal handlers cannot fail while deposits and outside transfers fit in u64 |
| EscrowInvariants.ClosedSystem | smart_contracts/programs/escrow/src/lib.rs:37-43 | without outside transfers: balance <= max_balance <= MAX_ALLOWED_BALANCE and no withdrawal overflows |
| EscrowInvariants.TakenIsSumOfTakings | smart_contracts/programs/escrow/src/lib.rs:435-440 | a role's counter is the sum of its committed withdrawals, each positive and within the cap |
| EscrowInvariants.RoleTotalBounded | smart_contracts/programs/escrow/src/lib.rs:336-339 | after k withdrawals a role has taken at most k times its cap |
| EscrowInvariants.NonceCountsActions | smart_contracts/programs/escrow/src/lib.rs:132-132 | the replay counter is the number of committed actions modulo 2^64 |
| EscrowTraces.LastDelegation | smart_contracts/programs/escrow/src/lib.rs:191-194 | an authority on record goes back to a delegation of exactly that key at the recorded time, in force ever since |
| EscrowTraces.TimeLock | smart_contracts/programs/escrow/src/lib.rs:340-348 | every committed role withdrawal at time t by key k follows a delegation of k at some time <= t - 300 that was not revoked in between |
| EscrowTraces.PauseFreezesAuthorities | smart_contracts/programs/escrow/src/lib.rs:604-621 | no key, flag or activation time changes over a whole pause window |
| EscrowTraces.PauseGuardsBalance | smart_contracts/programs/escrow/src/lib.rs:557-562 | inside a pause window the balance falls only by an emergency withdrawal |
| EscrowTraces.EmergencyNeedsNoAuthority | smart_contracts/programs/escrow/src/lib.rs:558-562 | an emergency withdrawal succeeds in a window only if no authority was active when it began |
| EscrowTraces.CooldownBeforeOrdinaryUse | smart_contracts/programs/escrow/src/state.rs:166-173 | under a monotone positive clock, an ordinary deposit or withdrawal comes at least 300 s after every earlier pause |
| EscrowExit.OwnerExit | smart_contracts/programs/escrow/src/lib.rs:260-316 | from every reachable state with the cooldown over, the plan unpause, revoke, revoke, withdraw succeeds at every step iff total withdrawn + balance fits in u64; it then leaves no authority, an empty escrow and the balance with the owner |
| EscrowExit.OrdinaryUseFits | smart_contracts/programs/escrow/src/lib.rs:504-509 | that condition holds as long as deposits and outside transfers fit in u64 |
| EscrowExit.ExitWithinOneCooldown | smart_contracts/programs/escrow/src/lib.rs:627-651 | after one cooldown on the clock the plan succeeds iff the same condition holds |
| EscrowFullExit.FullExit | smart_contracts/programs/escrow/src/lib.rs:215-254 | while the balance fits in the joint room of the three counters, the owner empties the escrow: he delegates both roles to himself, waits one time-lock, takes chunks within the caps and leaves |
| EscrowFullExit.BeyondRoomStays | smart_contracts/programs/escrow/src/lib.rs:435-440 | no plan of anybody that contains no close lowers the balance by more than that room |
| EscrowFullExit.ExitPossibleIff | smart_contracts/programs/escrow/src/lib.rs:404-474 | in every reachable state with the cooldown over, some plan signed by the owner alone that spans one time-lock and closes nothing empties the escrow iff the balance is at most the room |
| EscrowStranding.TokensCanStrand | smart_contracts/programs/escrow/src/lib.rs:356-361 | room does run out: a run under a positive monotone clock after which no plan of anybody short of a close takes the last token out |
| Breaker.CircuitBreaker.BeginCall | shared/src/shared/resilience/circuit_breaker.py:134-143 | the locked first half of a call: admission, probe count and a possible move to HALF_OPEN |
| Breaker.CircuitBreaker.CanAttempt | shared/src/shared/resilience/circuit_breaker.py:213-241 | admission per mode; OPEN admits only after the timeout |
| Breaker.CircuitBreaker.OnSuccess | shared/src/shared/resilience/circuit_breaker.py:243-257 | the locked end of a successful call in each mode |
| Breaker.CircuitBreaker.OnFailure | shared/src/shared/resilience/circuit_breaker.py:259-273 | the locked end of a counted failure in each mode |
| Breaker.CircuitBreaker.OnException | shared/src/shared/resilience/circuit_breaker.py:194-211 | only expected exception types are counted |
| Breaker.CircuitBreaker.ResetBreaker | shared/src/shared/resilience/circuit_breaker.py:299-306 | manual reset |
| Breaker.CircuitBreaker.TripBreaker | shared/src/shared/resilience/circuit_breaker.py:308-317 | manual trip |
| BreakerOutcomes.RaisedIsCountedIff | shared/src/shared/resilience/circuit_breaker.py:194-211 | in every run a failing call raises the failure figures and records its time iff its exception is of an expected type, and otherwise changes nothing |
| BreakerOutcomes.ReturnIsCounted | shared/src/shared/resilience/circuit_breaker.py:243-257 | what a returning call changes, in each mode |
| BreakerOutcomes.AttemptIsCounted | shared/src/shared/resilience/circuit_breaker.py:134-143 | which attempts are admitted, and that these and no others are in flight |
| BreakerOutcomes.ManualSteps | shared/src/shared/resilience/circuit_breaker.py:299-317 | the figures after a manual reset or trip |
| BreakerOutcomes.StateChangesCount | shared/src/shared/resilience/circuit_breaker.py:275-297 | the number of transitions goes up exactly with each change of mode and each manual step |
| BreakerOutcomes.ExpectedFailuresOpen | shared/src/shared/resilience/circuit_breaker.py:259-273 | after a success in CLOSED, m calls in a row raising one type open the breaker iff m reaches the threshold and the type is expected |
| BreakerHistory.CountersRefineHistory | shared/src/shared/resilience/circuit_breaker.py:243-297 | after any steps the counters say what a counter-free machine reads off its log: failures since the last success, time of the last failure, admitted probes and successes |
| BreakerHistory.SameAdmissions | shared/src/shared/resilience/circuit_breaker.py:213-241 | both machines admit and reject the same calls |
| BreakerHistory.OpensExactlyAtThreshold | shared/src/shared/resilience/circuit_breaker.py:266-269 | CLOSED opens iff tripped or at the failure that makes the run of failures reach the threshold |
| BreakerHistory.OpenKnowsLastFailure | shared/src/shared/resilience/circuit_breaker.py:259-264 | OPEN always knows the time of the last counted failure or trip of the whole run |
| BreakerHistory.OpenUntilTimeout | shared/src/shared/resilience/circuit_breaker.py:236-241 | without a reset an open breaker rejects everything until the timeout after the last counted failure |
| BreakerCalls.CallsAccounted | shared/src/shared/resilience/circuit_breaker.py:134-154 | in every interleaving: in HALF_OPEN the probe count is in flight + succeeded + uncounted calls of this phase, bounded by the limit (at least one); total calls = successes + failures + in flight + rejected + uncounted |
| BreakerCalls.FullHasProbeInFlight | shared/src/shared/resilience/circuit_breaker.py:230-232 | with a reachable success threshold and counted outcomes, a full HALF_OPEN has a call of its own in flight |
| BreakerCalls.WedgedForever | shared/src/shared/resilience/circuit_breaker.py:230-232 | a full HALF_OPEN with nothing in flight rejects every later attempt until a manual reset or trip |
| BreakerCalls.WedgesIffThresholdUnreachable | shared/src/shared/resilience/circuit_breaker.py:48-52 | with every outcome counted, some run wedges iff success_threshold > max(1, half_open_max_calls) |
| BreakerCalls.RecoversIff | shared/src/shared/resilience/circuit_breaker.py:243-257 | from every reachable state, with every outcome counted, some continuation without manual steps, starting as late as one likes, ends in CLOSED, iff success_threshold <= max(1, half_open_max_calls) |
| BreakerCalls.UncountedOutcomesWedge | shared/src/shared/resilience/circuit_breaker.py:150-154 | with uncounted outcomes some run wedges under every configuration |
| TokenBucket.TokenBucket.TryAcquire | shared/src/shared/resilience/rate_limiter.py:119-143 | grants iff the refilled level suffices, and takes exactly what it grants |
| TokenBucket.TokenBucket.Acquire | shared/src/shared/resilience/rate_limiter.py:145-188 | the waiting loop ends; it is refused iff the initial wait exceeds the timeout (up to the lag between its clock reads), and needs at most ceil(10 * wait) + 1 rounds; an oversize amount is always refused |
| TokenBucket.TokenBucket.AvailableTokens | shared/src/shared/resilience/rate_limiter.py:235-240 | reports the level and refills |
| TokenBucket.TokenBucket.ResetBucket | shared/src/shared/resilience/rate_limiter.py:252-261 | back to the initial tokens |
| TokenBucket.RefillsCompose | shared/src/shared/resilience/rate_limiter.py:93-101 | a refill in between changes no later level |
| TokenBucket.WaitShrinks | shared/src/shared/resilience/rate_limiter.py:103-117 | while short of an amount that fits, elapsed time plus remaining wait is the initial wait |
| TokenBucketRuns.WindowBound | shared/src/shared/resilience/rate_limiter.py:93-143 | the tokens granted within [s, t] are at most burst + rate * (t - s), for every run and every initial level |
| TokenBucketRuns.ObservationIndependence | shared/src/shared/resilience/rate_limiter.py:119-143 | looks and refused acquisitions change no later level and no later decision |
| TokenBucketRuns.FluidLevel | shared/src/shared/resilience/rate_limiter.py:93-101 | closed form: after any run the level at any time is the least of the burst, of initial tokens + rate * elapsed - all grants, and over every step k of burst + rate * time since k - grants from k on |
| TokenBucketRuns.GrantsDecideLevel | shared/src/shared/resilience/rate_limiter.py:119-143 | leaving out everything but the grants of a run changes no later level |
| TokenBucketRuns.GrantsIffRoom | shared/src/shared/resilience/rate_limiter.py:119-143 | a bucket that started full grants an amount iff every window ending now has room for it within burst + rate * length |
| CourierLimits.RateLimiterRegistry.GetLimiter | shared/src/shared/resilience/rate_limiter.py:294-309 | creates what is missing with the default configuration, otherwise returns the same bucket |
| CourierLimits.RateLimiterRegistry.SetLimiter | shared/src/shared/resilience/rate_limiter.py:311-329 | installs a new full bucket |
| CourierLimits.RateLimiterRegistry.RemoveLimiter | shared/src/shared/resilience/rate_limiter.py:331-336 | removes one key and nothing else |
| CourierLimits.RateLimiter.CheckRateLimit | courier/src/courier/infrastructure/rate_limiting/rate_limiter.py:91-107 | one token from the bucket that identifier and type select |
| CourierLimits.RateLimiter.GetRetryAfterSeconds | courier/src/courier/infrastructure/rate_limiting/rate_limiter.py:118-134 | zero if a token is there, else truncated wait plus one; a zero rate is a division error |
| CourierLimits.RateLimiter.ClearLimits | courier/src/courier/infrastructure/rate_limiting/rate_limiter.py:162-172 | drops one key or all |
| CourierBound.OwnBucketDecides | courier/src/courier/infrastructure/rate_limiting/rate_limiter.py:73-107 | a client's decisions are those of a bucket of its own, whatever the others do |
| CourierBound.DefaultLimitHolds | courier/src/courier/infrastructure/rate_limiting/rate_limiter.py:55-63 | at most limit * (1 + span / window) accepted checks in any span on the default path |
| CourierBound.LimitFromStart | courier/src/courier/infrastructure/rate_limiting/rate_limiter.py:55-63 | the same guarantee for an adapter from its start |
| CourierExact.AcceptedIffRoom | courier/src/courier/infrastructure/rate_limiting/rate_limiter.py:55-107 | a default check is accepted iff for every span ending now the accepted checks and this one stay within limit * (1 + span / window) |
| CourierExact.BurstIsLimit | courier/src/courier/infrastructure/rate_limiting/rate_limiter.py:59-62 | a client that is new or just cleared gets exactly limit checks accepted in one instant |
| CourierExact.LookupMeans | courier/src/courier/infrastructure/rate_limiting/rate_limiter.py:55-89 | what a lookup finds or installs, in limits and windows; no other entry moves |
| CourierExact.ClearForgets | courier/src/courier/infrastructure/rate_limiting/rate_limiter.py:162-172 | a clear removes exactly the key it names, or everything |
| CourierExact.NoRetryUnderZero | courier/src/courier/infrastructure/rate_limiting/rate_limiter.py:118-134 | under a limit of zero no check is accepted and the retry-after question is a division error |
| CourierCollisions.LimitedIff | courier/src/courier/infrastructure/rate_limiting/rate_limiter.py:65-86 | in every run in which no clear reaches the client, checks accepted within any span stay within the allowance, iff the client is not the key of a message type with a limit of at least one |
| CourierCollisions.KeysCollide | courier/src/courier/infrastructure/rate_limiting/rate_limiter.py:65-71 | such a client gets any number of accepted checks in one instant, by retry-after queries of the colliding type in between |
| CourierBound.RetryAfterSuffices | courier/src/courier/infrastructure/rate_limiting/rate_limiter.py:118-134 | after the reported seconds the adapter accepts the next check of the same identifier and type, whatever other clients do in between; the report exceeds the true wait by at most one second |
| CourierBound.TypedChecksUnlimited | courier/src/courier/infrastructure/rate_limiting/rate_limiter.py:77-86 | a typed check is accepted iff its limit is at least one, whatever went before: per-type limits do not limit |
| AccountCodec.FetchEscrowAccount | passeur/bridge/server.js:191-276 | not found, out of range below 226 bytes, otherwise the record at the fixed positions with clipped reserved bytes |
| AccountCodec.FetchInvertsEncode | passeur/bridge/server.js:191-276 | reading the stored form gives back the tag and every field, whatever follows; the stored form has 8 + INIT_SPACE bytes |
| AccountCodec.EncodeInvertsFetch | passeur/bridge/server.js:198-253 | every buffer of that size is the stored form of what is read from it |
| AccountCodec.FetchReadsExactly | smart_contracts/programs/escrow/src/state.rs:71-90 | nothing beyond 8 + INIT_SPACE bytes is looked at |
| AccountCodec.StoredAt | smart_contracts/programs/escrow/src/state.rs:71-90 | where each field lies in the stored form, byte by byte, with the weights of the bytes and of the flags |
| AccountCodec.FlagTestsAgree | passeur/bridge/server.js:901-903 | the bridge's three flag tests equal the program's getters |
| BridgeView.ReportIsConsistent | passeur/bridge/server.js:888-919 | for every reachable account the bridge reports a role active iff it shows a key for it, and its totals balance the token account up to outside transfers |
| AccountCodec.RoundTripU64 | passeur/bridge/server.js:232-248 | little-endian unsigned round trip |
| AccountCodec.RoundTripI64 | passeur/bridge/server.js:220-230 | little-endian two's complement round trip |
| InstructionCodec.TagsDistinct | passeur/bridge/instructions/discriminators.js:8-51 | no two tags are equal, already by their first byte |
| InstructionCodec.ParseInvertsWire | smart_contracts/programs/escrow/src/lib.rs:27-31 | dispatch by tag and reading the arguments give back the instruction that was written |
| InstructionCodec.WireUnambiguous | passeur/bridge/instructions/discriminators.js:8-51 | no byte string is the data of two instructions |
| InstructionCodec.WireLayout | passeur/bridge/instructions/discriminators.js:8-51 | the data of each instruction, byte by byte: its tag, its arguments in order and nothing else |
| InstructionCodec.WriteBigUInt64LE | passeur/bridge/server.js:665-666 | fills the buffer with the little-endian value, or refuses and leaves it alone |
| InstructionCodec.BuildDeposit | passeur/bridge/server.js:662-667 | the deposit data, or nothing for an amount that is not a u64 |
| InstructionCodec.BuildInitializeEscrow | passeur/bridge/instructions/initialize_escrow.js:25-36 | the initialisation data, or nothing for values out of range |
| Retry.Execute | shared/src/shared/resilience/retry.py:136-214 | ends as the specification says after exactly that many calls, sleep errors included, for the blocking and the asynchronous loop, having slept exactly after all calls but the last |
| Retry.EndsAsPromised | shared/src/shared/resilience/retry.py:153-214 | in terms of the calls' outcomes, the predicate on results and the types to retry on: every attempt but the last asked for another, and how the last one ends the loop |
| Retry.SleptIsNaps | shared/src/shared/resilience/retry.py:94-124 | the time slept is the sum over the attempts of the capped delay times (1 + jitter_factor * draw), from the initial delay on, multiplied, increased or kept as the strategy says |
| Retry.NapWithinJitter | shared/src/shared/resilience/retry.py:118-124 | each nap lies within its share of the capped delay, and is that delay for a draw of zero or without jitter |
| Retry.FirstAcceptedDecides | shared/src/shared/resilience/retry.py:153-189 | the first outcome that asks for no retry decides, if no sleep before it is impossible |
| Retry.ExhaustionIsReported | shared/src/shared/resilience/retry.py:168-198 | if there is none and every sleep is possible, the error names max_attempts, all of which were made, also when an exhaustion by result is caught again |
| Retry.ImpossibleSleepRaises | shared/src/shared/resilience/retry.py:200-207 | a negative delay before the last attempt ends the blocking loop with the error of the sleep, after a result as after an exception |
| Retry.BlockingAgreesIff | shared/src/shared/resilience/retry.py:216-294 | the blocking loop equals the asynchronous one for every function iff no delay between attempts is negative or nothing is ever retried |
| Retry.SaneSleeps | shared/src/shared/resilience/retry.py:115-124 | with jitter, or with non-negative settings, no delay is negative |
| Retry.DelayBounded | shared/src/shared/resilience/retry.py:94-124 | every delay lies between 0 and max_delay * (1 + jitter_factor) |
| Retry.DelaysGrow | shared/src/shared/resilience/retry.py:104-116 | before jitter the delays never get shorter for a multiplier of at least one |
| Connections.ConnectionManager.CheckConnectionLimits | courier/src/courier/infrastructure/websocket/connection_manager.py:47-102 | the first exceeded limit in the order global, user, channel |
| Connections.ExceededMeans | courier/src/courier/infrastructure/websocket/connection_manager.py:47-102 | which limit is reported, in the numbers of list entries and clients: the first of total, user, channel that is set and reached |
| Connections.StrayNewline | courier/src/courier/domain/value_objects/channel_name.py:13-49 | where no limit is in the way every documented name is accepted, and of the others exactly a documented name followed by one newline, 100 characters in all |
| Connections.ConnectionManager.AddClient | courier/src/courier/infrastructure/websocket/connection_manager.py:104-150 | adds to list and registry, or changes nothing |
| Connections.ConnectionManager.RemoveClient | courier/src/courier/infrastructure/websocket/connection_manager.py:152-163 | removes the first occurrence from the named list and the registry entry |
| Connections.FirstGoes | courier/src/courier/infrastructure/websocket/connection_manager.py:152-163 | the first occurrence goes, the others keep their order |
| Connections.ConnectionManager.CleanupEmptyChannels | courier/src/courier/infrastructure/websocket/connection_manager.py:207-221 | removes and reports exactly the empty channels |
| Connections.ConnectionManager.GetTotalConnections | courier/src/courier/infrastructure/websocket/connection_manager.py:187-189 | the sum of all list lengths |
| Connections.ConnectionManager.GetUserConnectionCount | courier/src/courier/infrastructure/websocket/connection_manager.py:195-197 | the number of registry entries of the user |
| ConnectionIndex.AgreementIffProper | courier/src/courier/infrastructure/websocket/connection_manager.py:104-163 | an operation keeps lists and registry in agreement iff it adds a new socket or removes one with its own channel; a refused add changes nothing |
| ConnectionIndex.IndexAgreement | courier/src/courier/infrastructure/websocket/connection_manager.py:104-163 | over every proper run each registered socket occurs once, in its own channel's list only, and the totals are equal |
| ConnectionIndex.LimitsAlwaysHold | courier/src/courier/infrastructure/websocket/connection_manager.py:47-102 | all three limits hold in every state of every run |
| ConnectionIndex.CapacityReached | courier/src/courier/infrastructure/websocket/connection_manager.py:47-150 | nobody is refused too early: of n new sockets of a user on a channel the first ones get in until the smallest limit that is set, and nobody after that |
| ConnectionIndex.TotalStep | courier/src/courier/infrastructure/websocket/connection_manager.py:187-189 | how each operation moves the total; cleanup does not |
| ConnectionIndex.CleanupKeepsCounts | courier/src/courier/infrastructure/websocket/connection_manager.py:207-211 | cleanup changes no channel's subscribers |
| History.TradingStrategy.UpdatePreviousValues | shared/src/shared/strategy/base_strategy.py:95-116 | every named buffer gets its value and keeps at most a hundred, in whatever order the names come |
| History.TradingStrategy.IsHighest | shared/src/shared/strategy/base_strategy.py:130-155 | whether the value occurs in the look-back and nothing there is greater |
| History.TradingStrategy.IsLowest | shared/src/shared/strategy/base_strategy.py:157-182 | whether the value occurs in the look-back and nothing there is less |
| History.TradingStrategy.IsRisingFor | shared/src/shared/strategy/indicator_based_strategy.py:64-97 | whether the last periods all rise |
| History.TradingStrategy.IsFallingFor | shared/src/shared/strategy/indicator_based_strategy.py:99-132 | whether the last periods all fall |
| History.TradingStrategy.DivergenceBullish | shared/src/shared/strategy/indicator_based_strategy.py:134-180 | price below every earlier price of the look-back, indicator above one of its earlier values |
| History.TradingStrategy.DivergenceBearish | shared/src/shared/strategy/indicator_based_strategy.py:182-228 | price above every earlier price of the look-back, indicator below one of its earlier values |
| History.ExtremaBound | shared/src/shared/strategy/base_strategy.py:152-155 | greatest and least value belong to the list and bound it |
| History.ExtremaByIndex | shared/src/shared/strategy/base_strategy.py:144-182 | the highest and lowest tests, entry by entry of the last n values |
| History.TrendsByIndex | shared/src/shared/strategy/indicator_based_strategy.py:79-132 | the rising and falling tests, entry by entry |
| History.DivergencesByIndex | shared/src/shared/strategy/indicator_based_strategy.py:160-228 | the divergence tests, entry by entry of the look-back without its last entry |
| HistoryWindow.BufferIsWindow | shared/src/shared/strategy/base_strategy.py:107-116 | after any updates each buffer holds the last min(n, 100) values of its stream |
| HistoryWindow.HistoryAnswersLikeStream | shared/src/shared/strategy/base_strategy.py:130-182 | highest, lowest, rising and falling give the answers of the unbounded stream within the buffer's size |
| HistoryWindow.TrendsLikeStream | shared/src/shared/strategy/indicator_based_strategy.py:64-132 | rising_for and falling_for agree with the stream for 0 to 99 periods |
| HistoryWindow.DivergencesLikeStream | shared/src/shared/strategy/indicator_based_strategy.py:134-228 | on a window of a list both divergences answer as on the whole list for look-backs of 1 to 100 |
| HistoryWindow.HistoryDivergencesLikeStream | shared/src/shared/strategy/indicator_based_strategy.py:134-228 | after any updates the divergences on the buffers are those of the two unbounded streams, missing names included |
| HistoryWindow.HighestFaithfulIff | shared/src/shared/strategy/base_strategy.py:144-155 | the highest test agrees with the stream for every stream iff 1 <= periods <= 100 |
| HistoryWindow.LowestFaithfulIff | shared/src/shared/strategy/base_strategy.py:171-182 | the lowest test agrees with the stream for every stream iff 1 <= periods <= 100 |
| HistoryWindow.RisingFaithfulIff | shared/src/shared/strategy/indicator_based_strategy.py:79-97 | the rising test agrees with the stream for every stream iff 0 <= periods < 100 |
| HistoryWindow.FallingFaithfulIff | shared/src/shared/strategy/indicator_based_strategy.py:114-132 | the falling test agrees with the stream for every stream iff 0 <= periods < 100 |
| HistoryWindow.DivergencesFaithfulIff | shared/src/shared/strategy/indicator_based_strategy.py:134-228 | each divergence test agrees with the streams for all streams iff 1 <= lookback <= 100 |
| HistoryWindow.DivergencesExclusive | shared/src/shared/strategy/indicator_based_strategy.py:134-228 | bullish and bearish divergence exclude each other for every look-back |
| Position.Position.UpdatePrice | shared/src/shared/strategy/position.py:76-90 | extremes and trailing stop after one price |
| Position.Position.ShouldStopLoss | shared/src/shared/strategy/position.py:56-64 | the stop test for either side |
| Position.Position.ShouldTakeProfit | shared/src/shared/strategy/position.py:66-74 | the take-profit test for either side |
| Position.Position.Close | shared/src/shared/strategy/position.py:92-98 | closing books the unrealized profit at the exit price |
| Position.ProfitIffFavourable | shared/src/shared/strategy/position.py:47-54 | a position shows a profit iff the price has moved in favour of its side |
| Position.ProfitFollowsPrice | shared/src/shared/strategy/position.py:47-54 | no profit at the entry price, and each step of the price is worth the size of the position |
| Position.ExtremesTracked | shared/src/shared/strategy/position.py:76-82 | highest and lowest price are prices seen, entry included, that bound all prices seen |
| Position.ClosedFormIff | shared/src/shared/strategy/position.py:76-90 | the trailing stop equals the tighter of the initial stop and best price * factor for all positive prices iff the percentage is not zero and the factor is not negative (up to 100 percent long, from -100 short) |
| Position.StopNeverLoosens | shared/src/shared/strategy/position.py:83-90 | a stop only tightens, under every percentage |
| Position.StopsOnDrawdown | shared/src/shared/strategy/position.py:56-64 | without an initial stop the position stops out iff the percentage is not zero and the price has come back from the best price by it; for every percentage when prices are positive |
| Position.StopsIffPriceCameBack | shared/src/shared/strategy/position.py:56-90 | the position stops out iff the price is at or beyond the initial stop, or has come back from some price seen by the trailing percentage |

## Left out

- Derivation of program addresses, signatures and rent: keys are abstract, the signer is part of the transaction, and neither the escrow's own address nor the all-zero key ever signs. A wrong owner is reported as Unauthorized although the address constraint may fail first.
- The token program: a transfer is an atomic ledger move or an error, and whether it accepts closing a token account that still holds dust is a parameter. Creating and closing wallets' token accounts is not modelled; the owner is assumed to hold one when leaving.
- A second initialisation after a close may name another mint, but the ledger of the first mint stays in place; and a token account that exists at the escrow's address beforehand, on which creating the account would fail, cannot occur.
- Events and log messages of the program: they do not feed back into its state.
- BreakerCalls.WedgesIffThresholdUnreachable: its witness opens the breaker by a manual trip, which works under every configuration.
- TokenBucket.TokenBucket.Acquire: one consumer only, because other consumers can take the tokens it waits for; a rate that is not positive, and an oversize amount without a timeout, are excluded because the wait is undefined or endless there; the asynchronous twin has the same body.
- CourierCollisions.LimitedIff: runs in which a clear reaches the client's key are left out, because a clear is there to give the client a full bucket again; limit and window are as the settings allow (the model also covers a limit of zero).
- Rounding of floats: amounts, times and prices are reals; not-a-number and infinities are not modelled, and indicator values are numbers.
- The registry's reset_all, the limiter's get_remaining and get_stats: single reads or loops over the operations that are modelled.
- Retry.Execute: predicates on results and exceptions are total functions; the bound on the total sleep is for non-negative settings.
- Crossing tests, position sizing and daily loss limits: single-branch comparisons.
- Client identifiers, connection times and reporting of the connection manager, and shutdown, which empties the lists without the registry.
- The bridge's other builders (delegate, revoke, withdraw, close): their data has the layout of `InstructionCodec.Wire`, which covers all fourteen instructions.
- The parsing of decimal amounts in the bridge, its HTTP routes and all other services of the repository: input and output around the parts modelled here.
