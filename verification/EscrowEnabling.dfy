/** Exactly when each instruction commits and what it then leaves behind, in the fields of
    the account and the ledger; and what each error says about the state. */
module EscrowEnabling {
  import opened Machine
  import opened EscrowState
  import opened EscrowSpec
  import opened EscrowInvariants
  import MapSum

  predicate OwnerSigns(w: World, ctx: Context) {
    w.account.Some? && ctx.signer == w.account.value.user
  }

  /** The right mint, and a token account of the signer. */
  predicate HoldsTokens(w: World, ctx: Context) {
    w.account.Some? && ctx.mint == w.account.value.tokenMint && ctx.signer in w.ledger
  }

  /** Not expired, on a clock whose distance from the creation fits in i64. */
  predicate Alive(a: Account, now: i64) {
    a.maxLifetime == 0 || I64_MIN <= now - a.createdAt <= a.maxLifetime
  }

  /** A recorded time lies at least five minutes back. */
  predicate FiveMinutesSince(since: i64, now: i64) {
    300 <= now - since <= I64_MAX
  }

  predicate NoAuthority(a: Account) {
    a.platformAuthority == DEFAULT_KEY && a.tradingAuthority == DEFAULT_KEY
  }

  function NextNonce(a: Account): u64 {
    (a.actionNonce + 1) % 0x1_0000_0000_0000_0000
  }

  /** The ledger after the escrow has paid out, or taken in. */
  function PaidOut(w: World, to: Pubkey, amount: u64): Ledger
    requires w.address in w.ledger && to in w.ledger && to != w.address
    requires amount <= w.ledger[w.address] && w.ledger[to] + amount <= U64_MAX
  {
    w.ledger[w.address := w.ledger[w.address] - amount][to := w.ledger[to] + amount]
  }

  lemma InitializeIff(w: World, ctx: Context, bump: u8, maxBalance: u64)
    requires Inv(w)
    ensures Transaction(w, ctx, Initialize(bump, maxBalance)).Ok? <==>
              && w.account.None? && ctx.signer != w.address && ctx.signer != DEFAULT_KEY
              && maxBalance <= 10_000_000_000_000 && 6 <= ctx.decimals <= 9
    ensures Transaction(w, ctx, Initialize(bump, maxBalance)).Ok? ==>
              var next := Transaction(w, ctx, Initialize(bump, maxBalance)).value;
              && next.address == w.address && next.ledger == w.ledger[w.address := 0] && next.account.Some?
              && var a := next.account.value;
                 && a.user == ctx.signer && a.tokenMint == ctx.mint && a.bump == bump && a.createdAt == ctx.now
                 && NoAuthority(a) && a.flags == 0 && a.actionNonce == 0 && a.maxLifetime == 0
                 && a.platformActivatedAt == a.tradingActivatedAt == a.lastPausedAt == 0
                 && a.totalDeposited == a.totalWithdrawn == a.totalFeesPaid == a.totalTraded == 0
                 && a.maxBalance == if maxBalance == 0 then 1_000_000_000_000 else maxBalance
  {
  }

  lemma DepositIff(w: World, ctx: Context, amount: u64)
    requires Inv(w)
    ensures Transaction(w, ctx, Deposit(amount)).Ok? <==>
              && OwnerSigns(w, ctx) && HoldsTokens(w, ctx)
              && var a := w.account.value;
                 && a.flags & 4 == 0 && Alive(a, ctx.now)
                 && 0 < amount <= w.ledger[ctx.signer]
                 && w.ledger[w.address] + amount <= a.maxBalance && a.totalDeposited + amount <= U64_MAX
    ensures Transaction(w, ctx, Deposit(amount)).Ok? ==>
              var a := w.account.value;
              Transaction(w, ctx, Deposit(amount)).value
              == World(w.address,
                       Some(a.(totalDeposited := a.totalDeposited + amount, actionNonce := NextNonce(a))),
                       w.ledger[ctx.signer := w.ledger[ctx.signer] - amount]
                               [w.address := w.ledger[w.address] + amount])
  {
    hide IsExpired;
    ExpiryMeans(w, ctx);
    if w.account.Some? && ctx.signer in w.ledger && ctx.signer != w.address {
      MapSum.TwoAtMostTotal<Pubkey>(w.ledger, w.address, ctx.signer);
    }
  }

  lemma ExpiryMeans(w: World, ctx: Context)
    ensures w.account.Some? && w.account.value.maxLifetime >= 0 ==>
              (IsExpired(w.account.value, ctx.now) == Some(false) <==> Alive(w.account.value, ctx.now))
  {
  }

  lemma DelegateIff(w: World, ctx: Context, key: Pubkey)
    requires Inv(w)
    ensures Transaction(w, ctx, DelegatePlatform(key)).Ok? <==>
              && OwnerSigns(w, ctx)
              && var a := w.account.value;
                 a.flags & 4 == 0 && Alive(a, ctx.now) && key != DEFAULT_KEY && a.platformAuthority == DEFAULT_KEY
    ensures Transaction(w, ctx, DelegatePlatform(key)).Ok? ==>
              var a := w.account.value;
              Transaction(w, ctx, DelegatePlatform(key)).value
              == w.(account := Some(a.(platformAuthority := key, flags := a.flags | 1,
                                       platformActivatedAt := ctx.now, actionNonce := NextNonce(a))))
    ensures Transaction(w, ctx, DelegateTrading(key)).Ok? <==>
              && OwnerSigns(w, ctx)
              && var a := w.account.value;
                 a.flags & 4 == 0 && Alive(a, ctx.now) && key != DEFAULT_KEY && a.tradingAuthority == DEFAULT_KEY
    ensures Transaction(w, ctx, DelegateTrading(key)).Ok? ==>
              var a := w.account.value;
              Transaction(w, ctx, DelegateTrading(key)).value
              == w.(account := Some(a.(tradingAuthority := key, flags := a.flags | 2,
                                       tradingActivatedAt := ctx.now, actionNonce := NextNonce(a))))
  {
    hide IsExpired;
    ExpiryMeans(w, ctx);
  }

  lemma RevokeIff(w: World, ctx: Context)
    requires Inv(w)
    ensures Transaction(w, ctx, RevokePlatform).Ok? <==> OwnerSigns(w, ctx) && w.account.value.flags & 4 == 0
    ensures Transaction(w, ctx, RevokePlatform).Ok? ==>
              var a := w.account.value;
              Transaction(w, ctx, RevokePlatform).value
              == w.(account := Some(a.(platformAuthority := DEFAULT_KEY, flags := a.flags & 0xFE,
                                       platformActivatedAt := 0, actionNonce := NextNonce(a))))
    ensures Transaction(w, ctx, RevokeTrading).Ok? <==> OwnerSigns(w, ctx) && w.account.value.flags & 4 == 0
    ensures Transaction(w, ctx, RevokeTrading).Ok? ==>
              var a := w.account.value;
              Transaction(w, ctx, RevokeTrading).value
              == w.(account := Some(a.(tradingAuthority := DEFAULT_KEY, flags := a.flags & 0xFD,
                                       tradingActivatedAt := 0, actionNonce := NextNonce(a))))
  {
  }

  /** Who may be paid: somebody other than the escrow with room for the amount. */
  lemma RoomForAll(w: World, to: Pubkey, amount: u64)
    requires Inv(w) && w.account.Some? && to in w.ledger && to != w.address && amount <= w.ledger[w.address]
    ensures w.ledger[to] + amount <= U64_MAX
  {
    MapSum.TwoAtMostTotal<Pubkey>(w.ledger, w.address, to);
  }

  lemma WithdrawFeeIff(w: World, ctx: Context, amount: u64)
    requires Inv(w)
    ensures Transaction(w, ctx, WithdrawSubscriptionFee(amount)).Ok? <==>
              && HoldsTokens(w, ctx) && ctx.signer != DEFAULT_KEY && ctx.signer != w.address
              && var a := w.account.value;
                 && ctx.signer == a.platformAuthority && a.flags & 4 == 0
                 && a.platformActivatedAt != 0 && FiveMinutesSince(a.platformActivatedAt, ctx.now)
                 && 0 < amount <= 1_000_000_000 && amount <= w.ledger[w.address]
                 && a.totalFeesPaid + amount <= U64_MAX
    ensures Transaction(w, ctx, WithdrawSubscriptionFee(amount)).Ok? ==>
              var a := w.account.value;
              && w.ledger[ctx.signer] + amount <= U64_MAX
              && Transaction(w, ctx, WithdrawSubscriptionFee(amount)).value
                 == World(w.address, Some(a.(totalFeesPaid := a.totalFeesPaid + amount, actionNonce := NextNonce(a))),
                          PaidOut(w, ctx.signer, amount))
  {
    if HoldsTokens(w, ctx) && ctx.signer != w.address && amount <= w.ledger[w.address] {
      RoomForAll(w, ctx.signer, amount);
    }
  }

  lemma WithdrawForTradeIff(w: World, ctx: Context, amount: u64)
    requires Inv(w)
    ensures Transaction(w, ctx, WithdrawForTrade(amount)).Ok? <==>
              && HoldsTokens(w, ctx) && ctx.signer != DEFAULT_KEY && ctx.signer != w.address
              && var a := w.account.value;
                 && ctx.signer == a.tradingAuthority && a.flags & 4 == 0
                 && a.tradingActivatedAt != 0 && FiveMinutesSince(a.tradingActivatedAt, ctx.now)
                 && 0 < amount <= 100_000_000_000 && amount <= w.ledger[w.address]
                 && a.totalTraded + amount <= U64_MAX
    ensures Transaction(w, ctx, WithdrawForTrade(amount)).Ok? ==>
              var a := w.account.value;
              && w.ledger[ctx.signer] + amount <= U64_MAX
              && Transaction(w, ctx, WithdrawForTrade(amount)).value
                 == World(w.address, Some(a.(totalTraded := a.totalTraded + amount, actionNonce := NextNonce(a))),
                          PaidOut(w, ctx.signer, amount))
  {
    if HoldsTokens(w, ctx) && ctx.signer != w.address && amount <= w.ledger[w.address] {
      RoomForAll(w, ctx.signer, amount);
    }
  }

  /** The flags of a sound account are set exactly with their keys. */
  lemma ActiveMeans(w: World)
    requires Inv(w) && w.account.Some?
    ensures HasActiveAuthority(w.account.value) <==> !NoAuthority(w.account.value)
  {
  }

  lemma OwnerWithdrawalIff(w: World, ctx: Context, emergency: bool, amount: u64)
    requires Inv(w)
    ensures var ins := if emergency then EmergencyWithdraw(amount) else Withdraw(amount);
            && (Transaction(w, ctx, ins).Ok? <==>
                  && OwnerSigns(w, ctx) && HoldsTokens(w, ctx)
                  && var a := w.account.value;
                     && (a.flags & 4 != 0 <==> emergency) && NoAuthority(a)
                     && 0 < amount <= w.ledger[w.address] && a.totalWithdrawn + amount <= U64_MAX)
            && (Transaction(w, ctx, ins).Ok? ==>
                  var a := w.account.value;
                  && w.ledger[ctx.signer] + amount <= U64_MAX
                  && Transaction(w, ctx, ins).value
                     == World(w.address,
                              Some(a.(totalWithdrawn := a.totalWithdrawn + amount, actionNonce := NextNonce(a))),
                              PaidOut(w, ctx.signer, amount)))
  {
    if w.account.Some? { ActiveMeans(w); }
    if HoldsTokens(w, ctx) && ctx.signer != w.address && amount <= w.ledger[w.address] {
      RoomForAll(w, ctx.signer, amount);
    }
    hide HasActiveAuthority;
  }

  lemma PauseIff(w: World, ctx: Context)
    requires Inv(w)
    ensures Transaction(w, ctx, Pause).Ok? <==> OwnerSigns(w, ctx)
    ensures Transaction(w, ctx, Pause).Ok? ==>
              var a := w.account.value;
              Transaction(w, ctx, Pause).value
              == w.(account := Some(a.(flags := a.flags | 4, lastPausedAt := ctx.now, actionNonce := NextNonce(a))))
    ensures Transaction(w, ctx, Unpause).Ok? <==>
              && OwnerSigns(w, ctx)
              && var a := w.account.value; a.lastPausedAt == 0 || FiveMinutesSince(a.lastPausedAt, ctx.now)
    ensures Transaction(w, ctx, Unpause).Ok? ==>
              var a := w.account.value;
              Transaction(w, ctx, Unpause).value
              == w.(account := Some(a.(flags := a.flags & 0xFB, actionNonce := NextNonce(a))))
  {
  }

  lemma SetMaxLifetimeIff(w: World, ctx: Context, seconds: i64)
    requires Inv(w)
    ensures Transaction(w, ctx, SetMaxLifetime(seconds)).Ok? <==> OwnerSigns(w, ctx) && seconds >= 0
    ensures Transaction(w, ctx, SetMaxLifetime(seconds)).Ok? ==>
              var a := w.account.value;
              Transaction(w, ctx, SetMaxLifetime(seconds)).value
              == w.(account := Some(a.(maxLifetime := seconds, actionNonce := NextNonce(a))))
  {
  }

  lemma CloseIff(w: World, ctx: Context)
    requires Inv(w)
    ensures Transaction(w, ctx, Close).Ok? <==>
              && OwnerSigns(w, ctx) && w.account.value.flags & 4 == 0 && NoAuthority(w.account.value)
              && w.ledger[w.address] <= 10 && ctx.lamports >= 2_039_280 && ctx.closeAccepted
    ensures Transaction(w, ctx, Close).Ok? ==>
              Transaction(w, ctx, Close).value == World(w.address, None, w.ledger - {w.address})
  {
    if w.account.Some? { ActiveMeans(w); }
    hide HasActiveAuthority;
  }
}
