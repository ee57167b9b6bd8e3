/** The instruction handlers as the program runs them: the stored account is loaded
    into a mutable object, the handler checks and assigns its fields and moves tokens,
    and the object is stored again only when the handler returned without an error. */
module EscrowProgram {
  import opened Machine
  import opened EscrowState
  import opened EscrowSpec

  class Runtime {
    const address: Pubkey
    var stored: Option<Account>
    var ledger: Ledger

    constructor (address: Pubkey, ledger: Ledger)
      ensures State() == World(address, None, ledger)
    {
      this.address := address;
      this.stored := None;
      this.ledger := ledger;
    }

    function State(): World
      reads this
    {
      World(address, stored, ledger)
    }

    /** A cross-program transfer; a refused one moves nothing. */
    method TokenTransfer(from: Pubkey, to: Pubkey, amount: u64) returns (failure: Option<Error>)
      modifies this`ledger
      ensures match Transfer(old(ledger), from, to, amount)
              case Moved(after) => failure == None && ledger == after
              case Refused(error) => failure == Some(error) && ledger == old(ledger)
    {
      if from !in ledger || to !in ledger { return Some(AccountNotInitialized); }
      if ledger[from] < amount { return Some(TokenProgramError); }
      if from == to { return None; }
      if ledger[to] + amount > U64_MAX { return Some(TokenProgramError); }
      ledger := ledger[from := ledger[from] - amount];
      ledger := ledger[to := ledger[to] + amount];
      failure := None;
    }

    /** The handler's outcome on the borrowed account and the ledger, against the
        outcome that the specification demands of the state before. */
    twostate predicate Agrees(e: EscrowAccount, new failure: Option<Error>, new expected: Outcome)
      reads this, e
    {
      match expected
      case Ok(w) =>
        failure == None && w.account == Some(e.View()) && w.ledger == ledger && w.address == address
      case Err(error) => failure == Some(error) && ledger == old(ledger)
    }

    method InitializeEscrow(ctx: Context, bump: u8, maxBalance: u64)
      returns (failure: Option<Error>, e: EscrowAccount?)
      requires stored.None?
      modifies this`ledger
      ensures failure.None? <==> e != null
      ensures match Initialized(old(State()), ctx, bump, maxBalance)
              case Ok(w) => failure == None && w.account == Some(e.View()) && w.ledger == ledger && w.address == address
              case Err(error) => failure == Some(error) && ledger == old(ledger)
    {
      if maxBalance > 0 {
        if maxBalance > MAX_ALLOWED_BALANCE { return Some(MaxBalanceExceeded), null; }
      }
      if !(ctx.decimals >= MIN_TOKEN_DECIMALS && ctx.decimals <= MAX_TOKEN_DECIMALS) {
        return Some(InvalidTokenDecimals), null;
      }
      var limit := if maxBalance == 0 then DEFAULT_MAX_BALANCE else maxBalance;
      e := new EscrowAccount(Account(ctx.signer, DEFAULT_KEY, DEFAULT_KEY, ctx.mint, bump, 0, ctx.now,
                                     0, 0, 0, 0, 0, 0, 0, 0, limit, 0, NO_RESERVED));
      ledger := ledger[address := 0];
      failure := None;
    }

    method DepositToken(ctx: Context, e: EscrowAccount, amount: u64) returns (failure: Option<Error>)
      requires address in ledger
      modifies this`ledger, e
      ensures Agrees(e, failure, Deposited(old(State()), old(e.View()), old(ledger[address]), ctx, amount))
    {
      if HasFlag(e.flags, FLAG_PAUSED) { return Some(EscrowPaused); }
      if amount == 0 { return Some(InvalidAmount); }
      var expired := IsExpired(e.View(), ctx.now);
      if expired.None? { return Some(ArithmeticPanic); }
      if expired.value { return Some(EscrowExpired); }
      var newBalance := CheckedAdd(ledger[address], amount);
      if newBalance.None? { return Some(MathOverflow); }
      if e.maxBalance > 0 {
        if newBalance.value > e.maxBalance { return Some(MaxBalanceExceeded); }
      }
      var total := CheckedAdd(e.totalDeposited, amount);
      if total.None? { return Some(MathOverflow); }
      e.totalDeposited := total.value;
      e.actionNonce := WrappingInc(e.actionNonce);
      failure := TokenTransfer(ctx.signer, address, amount);
    }

    method DelegatePlatformAuthority(ctx: Context, e: EscrowAccount, authority: Pubkey) returns (failure: Option<Error>)
      modifies e
      ensures Agrees(e, failure, Delegated(old(State()), old(e.View()), ctx, Platform, authority))
    {
      if HasFlag(e.flags, FLAG_PAUSED) { return Some(EscrowPaused); }
      if authority == DEFAULT_KEY { return Some(InvalidAuthority); }
      if e.platformAuthority != DEFAULT_KEY { return Some(PlatformAuthorityAlreadySet); }
      var expired := IsExpired(e.View(), ctx.now);
      if expired.None? { return Some(ArithmeticPanic); }
      if expired.value { return Some(EscrowExpired); }
      e.platformAuthority := authority;
      e.SetPlatformActive(true);
      e.platformActivatedAt := ctx.now;
      e.actionNonce := WrappingInc(e.actionNonce);
      failure := None;
    }

    method DelegateTradingAuthority(ctx: Context, e: EscrowAccount, authority: Pubkey) returns (failure: Option<Error>)
      modifies e
      ensures Agrees(e, failure, Delegated(old(State()), old(e.View()), ctx, Trading, authority))
    {
      if HasFlag(e.flags, FLAG_PAUSED) { return Some(EscrowPaused); }
      if authority == DEFAULT_KEY { return Some(InvalidAuthority); }
      if e.tradingAuthority != DEFAULT_KEY { return Some(TradingAuthorityAlreadySet); }
      var expired := IsExpired(e.View(), ctx.now);
      if expired.None? { return Some(ArithmeticPanic); }
      if expired.value { return Some(EscrowExpired); }
      e.tradingAuthority := authority;
      e.SetTradingActive(true);
      e.tradingActivatedAt := ctx.now;
      e.actionNonce := WrappingInc(e.actionNonce);
      failure := None;
    }

    method RevokePlatformAuthority(e: EscrowAccount) returns (failure: Option<Error>)
      modifies e
      ensures Agrees(e, failure, Revoked(old(State()), old(e.View()), Platform))
    {
      if HasFlag(e.flags, FLAG_PAUSED) { return Some(EscrowPaused); }
      e.platformAuthority := DEFAULT_KEY;
      e.SetPlatformActive(false);
      e.platformActivatedAt := 0;
      e.actionNonce := WrappingInc(e.actionNonce);
      failure := None;
    }

    method RevokeTradingAuthority(e: EscrowAccount) returns (failure: Option<Error>)
      modifies e
      ensures Agrees(e, failure, Revoked(old(State()), old(e.View()), Trading))
    {
      if HasFlag(e.flags, FLAG_PAUSED) { return Some(EscrowPaused); }
      e.tradingAuthority := DEFAULT_KEY;
      e.SetTradingActive(false);
      e.tradingActivatedAt := 0;
      e.actionNonce := WrappingInc(e.actionNonce);
      failure := None;
    }

    method WithdrawFee(ctx: Context, e: EscrowAccount, amount: u64) returns (failure: Option<Error>)
      requires address in ledger
      modifies this`ledger, e
      ensures Agrees(e, failure, TakenByRole(old(State()), old(e.View()), old(ledger[address]), ctx, Platform, amount))
    {
      if HasFlag(e.flags, FLAG_PAUSED) { return Some(EscrowPaused); }
      if amount == 0 { return Some(InvalidAmount); }
      if amount > MAX_SUBSCRIPTION_FEE { return Some(AmountTooLarge); }
      if ctx.signer != e.platformAuthority { return Some(UnauthorizedPlatform); }
      var mature := IsMature(e.View(), Platform, ctx.now);
      if mature.None? { return Some(ArithmeticPanic); }
      if !mature.value { return Some(PlatformAuthorityTooNew); }
      if amount > ledger[address] { return Some(InsufficientBalance); }
      var total := CheckedAdd(e.totalFeesPaid, amount);
      if total.None? { return Some(MathOverflow); }
      e.totalFeesPaid := total.value;
      e.actionNonce := WrappingInc(e.actionNonce);
      failure := TokenTransfer(address, ctx.signer, amount);
    }

    method WithdrawTrade(ctx: Context, e: EscrowAccount, amount: u64) returns (failure: Option<Error>)
      requires address in ledger
      modifies this`ledger, e
      ensures Agrees(e, failure, TakenByRole(old(State()), old(e.View()), old(ledger[address]), ctx, Trading, amount))
    {
      if HasFlag(e.flags, FLAG_PAUSED) { return Some(EscrowPaused); }
      if amount == 0 { return Some(InvalidAmount); }
      if amount > MAX_TRANSACTION_AMOUNT { return Some(AmountTooLarge); }
      if ctx.signer != e.tradingAuthority { return Some(UnauthorizedTrading); }
      var mature := IsMature(e.View(), Trading, ctx.now);
      if mature.None? { return Some(ArithmeticPanic); }
      if !mature.value { return Some(TradingAuthorityTooNew); }
      if amount > ledger[address] { return Some(InsufficientBalance); }
      var total := CheckedAdd(e.totalTraded, amount);
      if total.None? { return Some(MathOverflow); }
      e.totalTraded := total.value;
      e.actionNonce := WrappingInc(e.actionNonce);
      failure := TokenTransfer(address, ctx.signer, amount);
    }

    method WithdrawToken(ctx: Context, e: EscrowAccount, amount: u64) returns (failure: Option<Error>)
      requires address in ledger
      modifies this`ledger, e
      ensures Agrees(e, failure, TakenByOwner(old(State()), old(e.View()), old(ledger[address]), ctx, false, amount))
    {
      if HasFlag(e.flags, FLAG_PAUSED) { return Some(EscrowPaused); }
      if HasActiveAuthority(e.View()) { return Some(EscrowStillActive); }
      if amount == 0 { return Some(InvalidAmount); }
      if amount > ledger[address] { return Some(InsufficientBalance); }
      var total := CheckedAdd(e.totalWithdrawn, amount);
      if total.None? { return Some(MathOverflow); }
      e.totalWithdrawn := total.value;
      e.actionNonce := WrappingInc(e.actionNonce);
      failure := TokenTransfer(address, ctx.signer, amount);
    }

    method EmergencyWithdrawal(ctx: Context, e: EscrowAccount, amount: u64) returns (failure: Option<Error>)
      requires address in ledger
      modifies this`ledger, e
      ensures Agrees(e, failure, TakenByOwner(old(State()), old(e.View()), old(ledger[address]), ctx, true, amount))
    {
      if !HasFlag(e.flags, FLAG_PAUSED) { return Some(EscrowNotPaused); }
      if HasActiveAuthority(e.View()) { return Some(EscrowStillActive); }
      if amount == 0 { return Some(InvalidAmount); }
      if amount > ledger[address] { return Some(InsufficientBalance); }
      var total := CheckedAdd(e.totalWithdrawn, amount);
      if total.None? { return Some(MathOverflow); }
      e.totalWithdrawn := total.value;
      e.actionNonce := WrappingInc(e.actionNonce);
      failure := TokenTransfer(address, ctx.signer, amount);
    }

    method PauseEscrow(ctx: Context, e: EscrowAccount)
      modifies e
      ensures e.View() == old(e.View()).(flags := SetFlag(old(e.flags), FLAG_PAUSED, true),
                                         lastPausedAt := ctx.now, actionNonce := WrappingInc(old(e.actionNonce)))
    {
      e.SetPaused(true, ctx.now);
      e.actionNonce := WrappingInc(e.actionNonce);
    }

    method UnpauseEscrow(ctx: Context, e: EscrowAccount) returns (failure: Option<Error>)
      modifies e
      ensures Agrees(e, failure, Unpaused(old(State()), old(e.View()), ctx))
    {
      hide CanUnpause, SetFlag, HasFlag, WrappingInc;
      var cooled := CanUnpause(e.View(), ctx.now);
      if cooled.None? { return Some(ArithmeticPanic); }
      if !cooled.value { return Some(CooldownNotElapsed); }
      e.SetPaused(false, ctx.now);
      e.actionNonce := WrappingInc(e.actionNonce);
      failure := None;
    }

    method SetLifetime(e: EscrowAccount, seconds: i64) returns (failure: Option<Error>)
      modifies e
      ensures seconds < 0 ==> failure == Some(InvalidLifetime)
      ensures seconds >= 0 ==>
                && failure == None
                && e.View() == old(e.View()).(maxLifetime := seconds, actionNonce := WrappingInc(old(e.actionNonce)))
    {
      if seconds < 0 { return Some(InvalidLifetime); }
      e.maxLifetime := seconds;
      e.actionNonce := WrappingInc(e.actionNonce);
      failure := None;
    }

    /** Closing removes the token account; the caller drops the escrow account itself. */
    method CloseEscrow(ctx: Context, e: EscrowAccount) returns (failure: Option<Error>)
      requires address in ledger
      modifies this`ledger
      ensures match Closed(old(State()), e.View(), old(ledger[address]), ctx)
              case Ok(w) => failure == None && w == World(address, None, ledger)
              case Err(error) => failure == Some(error) && ledger == old(ledger)
    {
      if HasFlag(e.flags, FLAG_PAUSED) { return Some(EscrowPaused); }
      if HasActiveAuthority(e.View()) { return Some(EscrowStillActive); }
      if ledger[address] > DUST_THRESHOLD { return Some(EscrowNotEmpty); }
      if ctx.lamports < MIN_RENT_EXEMPT_LAMPORTS { return Some(RentNotRecovered); }
      if !ctx.closeAccepted { return Some(TokenProgramError); }
      ledger := ledger - {address};
      failure := None;
    }

    /** Runs the handler an instruction selects on a freshly loaded account. */
    method Dispatch(ctx: Context, ins: Instruction, e: EscrowAccount) returns (failure: Option<Error>)
      requires stored == Some(e.View())
      requires !ins.Initialize? && !ins.Close? && Constraints(State(), ctx, ins).None?
      modifies this`ledger, e
      ensures Agrees(e, failure, Handled(old(State()), ctx, ins))
    {
      failure := None;
      match ins
      case Deposit(amount) => failure := DepositToken(ctx, e, amount);
      case DelegatePlatform(key) => failure := DelegatePlatformAuthority(ctx, e, key);
      case DelegateTrading(key) => failure := DelegateTradingAuthority(ctx, e, key);
      case RevokePlatform => failure := RevokePlatformAuthority(e);
      case RevokeTrading => failure := RevokeTradingAuthority(e);
      case WithdrawSubscriptionFee(amount) => failure := WithdrawFee(ctx, e, amount);
      case WithdrawForTrade(amount) => failure := WithdrawTrade(ctx, e, amount);
      case Withdraw(amount) => failure := WithdrawToken(ctx, e, amount);
      case EmergencyWithdraw(amount) => failure := EmergencyWithdrawal(ctx, e, amount);
      case Pause => PauseEscrow(ctx, e);
      case Unpause => failure := UnpauseEscrow(ctx, e);
      case SetMaxLifetime(seconds) => failure := SetLifetime(e, seconds);
    }

    /** One transaction: all of it is committed, or none of it. */
    method Process(ctx: Context, ins: Instruction) returns (failure: Option<Error>)
      modifies this
      ensures State() == Next(old(State()), Invoke(ctx, ins))
      ensures failure == match Step(old(State()), Invoke(ctx, ins)) case Ok(_) => None case Err(error) => Some(error)
    {
      failure := Constraints(State(), ctx, ins);
      if failure.Some? { return; }
      if ins.Initialize? {
        var created;
        failure, created := InitializeEscrow(ctx, ins.bump, ins.maxBalance);
        if created != null { stored := Some(created.View()); }
        return;
      }
      var e := new EscrowAccount(stored.value);
      if ins.Close? {
        failure := CloseEscrow(ctx, e);
        if failure.None? { stored := None; }
      } else {
        failure := Dispatch(ctx, ins, e);
        if failure.None? { stored := Some(e.View()); }
      }
    }
  }
}
