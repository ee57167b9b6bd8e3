/** Which error a refused transaction reports: one table of checks, each stated in the
    fields of the account, the ledger and the context, in one order for all instructions. */
module EscrowErrors {
  import opened Machine
  import opened EscrowState
  import opened EscrowSpec
  import opened EscrowInvariants
  import opened EscrowEnabling
  import MapSum

  datatype Check =
    | NoSignature | AlreadyThere | NothingThere | NotTheOwner | OtherMint | NoTokenAccount
    | LimitTooHigh | OddDecimals | IsStopped | NotStopped | StillDelegated | NoAmount | TooMuch
    | NoKey | KeyTaken | NotTheDelegate | ClockOff | TooNew | TooOld | TooSoon
    | TooFewTokens | NotDrained | LittleRent | BalanceOverflow | OverLimit | CountOverflow
    | TokenProgramRefuses | BadLifetime

  /** The order of the checks. */
  function Rank(c: Check): nat {
    match c
    case NoSignature => 0 case AlreadyThere => 1 case NothingThere => 2 case NotTheOwner => 3
    case OtherMint => 4 case NoTokenAccount => 5 case LimitTooHigh => 6 case OddDecimals => 7
    case IsStopped => 8 case NotStopped => 9 case StillDelegated => 10 case NoAmount => 11
    case TooMuch => 12 case NoKey => 13 case KeyTaken => 14 case NotTheDelegate => 15
    case ClockOff => 16 case TooNew => 17 case TooOld => 18 case TooSoon => 19
    case TooFewTokens => 20 case NotDrained => 21 case LittleRent => 22 case BalanceOverflow => 23
    case OverLimit => 24 case CountOverflow => 25 case TokenProgramRefuses => 26 case BadLifetime => 27
  }

  predicate Outside(distance: int) {
    distance < -0x8000_0000_0000_0000 || distance > 0x7FFF_FFFF_FFFF_FFFF
  }

  /** The transaction fails this check; instructions that do not make it pass. */
  predicate Violated(w: World, ctx: Context, ins: Instruction, c: Check) {
    match c
    case NoSignature => ctx.signer == w.address || ctx.signer == DEFAULT_KEY
    case AlreadyThere => ins.Initialize? && w.account.Some?
    case NothingThere => !ins.Initialize? && w.account.None?
    case LimitTooHigh => ins.Initialize? && ins.maxBalance > 10_000_000_000_000
    case OddDecimals => ins.Initialize? && !(6 <= ctx.decimals <= 9)
    case NotTheOwner =>
      && w.account.Some? && !ins.Initialize? && !ins.WithdrawSubscriptionFee? && !ins.WithdrawForTrade?
      && ctx.signer != w.account.value.user
    case OtherMint => w.account.Some? && HasAmount(ins) && ctx.mint != w.account.value.tokenMint
    case NoTokenAccount => w.account.Some? && HasAmount(ins) && ctx.signer !in w.ledger
    case _ => w.account.Some? && !ins.Initialize? && Fails(w, w.account.value, Balance(w), ctx, ins, c)
  }

  predicate Fails(w: World, a: Account, balance: u64, ctx: Context, ins: Instruction, c: Check) {
    match c
    case IsStopped =>
      && !ins.EmergencyWithdraw? && !ins.Pause? && !ins.Unpause? && !ins.SetMaxLifetime?
      && a.flags & 4 != 0
    case NotStopped => ins.EmergencyWithdraw? && a.flags & 4 == 0
    case StillDelegated => (ins.Withdraw? || ins.EmergencyWithdraw? || ins.Close?) && !NoAuthority(a)
    case NoAmount => HasAmount(ins) && ins.amount == 0
    case TooMuch =>
      || (ins.WithdrawSubscriptionFee? && ins.amount > 1_000_000_000)
      || (ins.WithdrawForTrade? && ins.amount > 100_000_000_000)
    case NoKey => (ins.DelegatePlatform? || ins.DelegateTrading?) && ins.authority == DEFAULT_KEY
    case KeyTaken =>
      || (ins.DelegatePlatform? && a.platformAuthority != DEFAULT_KEY)
      || (ins.DelegateTrading? && a.tradingAuthority != DEFAULT_KEY)
    case NotTheDelegate =>
      || (ins.WithdrawSubscriptionFee? && ctx.signer != a.platformAuthority)
      || (ins.WithdrawForTrade? && ctx.signer != a.tradingAuthority)
    case ClockOff =>
      || (NeedsLife(ins) && a.maxLifetime != 0 && Outside(ctx.now - a.createdAt))
      || (ins.WithdrawSubscriptionFee? && a.platformActivatedAt != 0 && Outside(ctx.now - a.platformActivatedAt))
      || (ins.WithdrawForTrade? && a.tradingActivatedAt != 0 && Outside(ctx.now - a.tradingActivatedAt))
      || (ins.Unpause? && a.lastPausedAt != 0 && Outside(ctx.now - a.lastPausedAt))
    case TooNew =>
      || (ins.WithdrawSubscriptionFee? && (a.platformActivatedAt == 0 || ctx.now - a.platformActivatedAt < 300))
      || (ins.WithdrawForTrade? && (a.tradingActivatedAt == 0 || ctx.now - a.tradingActivatedAt < 300))
    case TooOld => NeedsLife(ins) && a.maxLifetime != 0 && ctx.now - a.createdAt > a.maxLifetime
    case TooSoon => ins.Unpause? && a.lastPausedAt != 0 && ctx.now - a.lastPausedAt < 300
    case TooFewTokens => HasAmount(ins) && !ins.Deposit? && ins.amount > balance
    case NotDrained => ins.Close? && balance > 10
    case LittleRent => ins.Close? && ctx.lamports < 2_039_280
    case BalanceOverflow => ins.Deposit? && balance + ins.amount > 0xFFFF_FFFF_FFFF_FFFF
    case OverLimit => ins.Deposit? && balance + ins.amount > a.maxBalance
    case CountOverflow => HasAmount(ins) && Counter(a, ins) + ins.amount > 0xFFFF_FFFF_FFFF_FFFF
    case TokenProgramRefuses =>
      || (ins.Deposit? && ctx.signer in w.ledger && ins.amount > w.ledger[ctx.signer])
      || (ins.Close? && !ctx.closeAccepted)
    case BadLifetime => ins.SetMaxLifetime? && ins.seconds < 0
    case _ => false
  }

  predicate HasAmount(ins: Instruction) {
    || ins.Deposit? || ins.WithdrawSubscriptionFee? || ins.WithdrawForTrade?
    || ins.Withdraw? || ins.EmergencyWithdraw?
  }

  predicate NeedsLife(ins: Instruction) {
    ins.Deposit? || ins.DelegatePlatform? || ins.DelegateTrading?
  }

  /** The counter that the amount of an instruction is added to. */
  function Counter(a: Account, ins: Instruction): u64
    requires HasAmount(ins)
  {
    if ins.Deposit? then a.totalDeposited
    else if ins.WithdrawSubscriptionFee? then a.totalFeesPaid
    else if ins.WithdrawForTrade? then a.totalTraded
    else a.totalWithdrawn
  }

  /** The error that a failed check reports. */
  function Reports(ins: Instruction, c: Check): Error {
    match c
    case NoSignature => MissingSignature
    case AlreadyThere => AccountInUse
    case NothingThere => AccountNotInitialized
    case NotTheOwner => Unauthorized
    case OtherMint => InvalidTokenMint
    case NoTokenAccount => AccountNotInitialized
    case LimitTooHigh => MaxBalanceExceeded
    case OddDecimals => InvalidTokenDecimals
    case IsStopped => EscrowPaused
    case NotStopped => EscrowNotPaused
    case StillDelegated => EscrowStillActive
    case NoAmount => InvalidAmount
    case TooMuch => AmountTooLarge
    case NoKey => InvalidAuthority
    case KeyTaken => if ins.DelegatePlatform? then PlatformAuthorityAlreadySet else TradingAuthorityAlreadySet
    case NotTheDelegate => if ins.WithdrawSubscriptionFee? then UnauthorizedPlatform else UnauthorizedTrading
    case ClockOff => ArithmeticPanic
    case TooNew => if ins.WithdrawSubscriptionFee? then PlatformAuthorityTooNew else TradingAuthorityTooNew
    case TooOld => EscrowExpired
    case TooSoon => CooldownNotElapsed
    case TooFewTokens => InsufficientBalance
    case NotDrained => EscrowNotEmpty
    case LittleRent => RentNotRecovered
    case BalanceOverflow => MathOverflow
    case OverLimit => MaxBalanceExceeded
    case CountOverflow => MathOverflow
    case TokenProgramRefuses => TokenProgramError
    case BadLifetime => InvalidLifetime
  }

  /** The first check, in order, that the transaction fails. */
  ghost predicate FirstFailure(w: World, ctx: Context, ins: Instruction, c: Check) {
    Violated(w, ctx, ins, c) && forall d :: Violated(w, ctx, ins, d) ==> Rank(c) <= Rank(d)
  }

  /** The check behind an error. */
  function Blamed(w: World, ins: Instruction, e: Error): Check {
    match e
    case MissingSignature => NoSignature
    case AccountInUse => AlreadyThere
    case AccountNotInitialized => if w.account.None? then NothingThere else NoTokenAccount
    case Unauthorized => NotTheOwner
    case InvalidTokenMint => OtherMint
    case MaxBalanceExceeded => if ins.Initialize? then LimitTooHigh else OverLimit
    case InvalidTokenDecimals => OddDecimals
    case EscrowPaused => IsStopped
    case EscrowNotPaused => NotStopped
    case EscrowStillActive => StillDelegated
    case InvalidAmount => NoAmount
    case AmountTooLarge => TooMuch
    case InvalidAuthority => NoKey
    case PlatformAuthorityAlreadySet => KeyTaken
    case TradingAuthorityAlreadySet => KeyTaken
    case UnauthorizedPlatform => NotTheDelegate
    case UnauthorizedTrading => NotTheDelegate
    case ArithmeticPanic => ClockOff
    case PlatformAuthorityTooNew => TooNew
    case TradingAuthorityTooNew => TooNew
    case EscrowExpired => TooOld
    case CooldownNotElapsed => TooSoon
    case InsufficientBalance => TooFewTokens
    case EscrowNotEmpty => NotDrained
    case RentNotRecovered => LittleRent
    case MathOverflow =>
      if ins.Deposit? && Balance(w) + ins.amount > U64_MAX then BalanceOverflow else CountOverflow
    case TokenProgramError => TokenProgramRefuses
    case InvalidLifetime => BadLifetime
  }

  /** What the table says of a refused transaction. */
  ghost predicate ErrorExplained(w: World, ctx: Context, ins: Instruction, e: Error) {
    FirstFailure(w, ctx, ins, Blamed(w, ins, e)) && Reports(ins, Blamed(w, ins, e)) == e
  }

  /** The checks made before a handler runs, in their order. */
  function Refusal(w: World, ctx: Context, ins: Instruction): Check
    requires Constraints(w, ctx, ins).Some?
  {
    if ctx.signer == w.address || ctx.signer == DEFAULT_KEY then NoSignature
    else if ins.Initialize? then AlreadyThere
    else if w.account.None? then NothingThere
    else if OwnerOnly(ins) && ctx.signer != w.account.value.user then NotTheOwner
    else if ctx.mint != w.account.value.tokenMint then OtherMint
    else NoTokenAccount
  }

  lemma RefusalReported(w: World, ctx: Context, ins: Instruction)
    requires Inv(w) && Constraints(w, ctx, ins).Some?
    ensures Blamed(w, ins, Constraints(w, ctx, ins).value) == Refusal(w, ctx, ins)
    ensures Reports(ins, Refusal(w, ctx, ins)) == Constraints(w, ctx, ins).value
  {
    hide Inv;
    if w.account.Some? { InvMeans(w); }
  }

  lemma RefusalFirst(w: World, ctx: Context, ins: Instruction, d: Check)
    requires Inv(w) && Constraints(w, ctx, ins).Some?
    ensures Violated(w, ctx, ins, Refusal(w, ctx, ins))
    ensures Violated(w, ctx, ins, d) ==> Rank(Refusal(w, ctx, ins)) <= Rank(d)
  {
    hide Inv, Fails;
    if w.account.Some? { InvMeans(w); }
  }

  lemma ConstraintExplained(w: World, ctx: Context, ins: Instruction)
    requires Inv(w) && Constraints(w, ctx, ins).Some?
    ensures ErrorExplained(w, ctx, ins, Constraints(w, ctx, ins).value)
  {
    hide Inv, Violated, Rank, Blamed, Reports, Refusal, Constraints;
    RefusalReported(w, ctx, ins);
    forall d ensures Violated(w, ctx, ins, d) ==> Rank(Refusal(w, ctx, ins)) <= Rank(d) {
      RefusalFirst(w, ctx, ins, d);
    }
    RefusalFirst(w, ctx, ins, Refusal(w, ctx, ins));
  }

  /** The part of the invariant that the handlers' checks rely on. */
  lemma InvMeans(w: World)
    requires Inv(w) && w.account.Some?
    ensures w.address in w.ledger
    ensures w.account.value.maxBalance > 0 && w.account.value.maxLifetime >= 0
    ensures w.account.value.user != w.address
  {
  }

  lemma InitializeExplained(w: World, ctx: Context, ins: Instruction)
    requires Inv(w) && Constraints(w, ctx, ins).None? && ins.Initialize?
    requires Handled(w, ctx, ins).Err?
    ensures ErrorExplained(w, ctx, ins, Handled(w, ctx, ins).error)
  {
    hide Inv;
  }

  lemma DepositExplained(w: World, ctx: Context, ins: Instruction)
    requires Inv(w) && Constraints(w, ctx, ins).None? && ins.Deposit?
    requires Handled(w, ctx, ins).Err?
    ensures ErrorExplained(w, ctx, ins, Handled(w, ctx, ins).error)
  {
    hide Inv, WrappingInc;
    InvMeans(w);
    if ctx.signer in w.ledger { MapSum.TwoAtMostTotal<Pubkey>(w.ledger, w.address, ctx.signer); }
  }

  lemma PlatformDelegationExplained(w: World, ctx: Context, ins: Instruction)
    requires Inv(w) && Constraints(w, ctx, ins).None? && ins.DelegatePlatform?
    requires Handled(w, ctx, ins).Err?
    ensures ErrorExplained(w, ctx, ins, Handled(w, ctx, ins).error)
  {
    hide Inv, SetFlag, WrappingInc, WithRole;
    InvMeans(w);
  }

  lemma TradingDelegationExplained(w: World, ctx: Context, ins: Instruction)
    requires Inv(w) && Constraints(w, ctx, ins).None? && ins.DelegateTrading?
    requires Handled(w, ctx, ins).Err?
    ensures ErrorExplained(w, ctx, ins, Handled(w, ctx, ins).error)
  {
    hide Inv, SetFlag, WrappingInc, WithRole;
    InvMeans(w);
  }

  lemma RevocationExplained(w: World, ctx: Context, ins: Instruction)
    requires Inv(w) && Constraints(w, ctx, ins).None? && (ins.RevokePlatform? || ins.RevokeTrading?)
    requires Handled(w, ctx, ins).Err?
    ensures ErrorExplained(w, ctx, ins, Handled(w, ctx, ins).error)
  {
    hide Inv, SetFlag, WrappingInc, WithRole;
    InvMeans(w);
  }

  lemma FeeExplained(w: World, ctx: Context, ins: Instruction)
    requires Inv(w) && Constraints(w, ctx, ins).None? && ins.WithdrawSubscriptionFee?
    requires Handled(w, ctx, ins).Err?
    ensures ErrorExplained(w, ctx, ins, Handled(w, ctx, ins).error)
  {
    hide Inv, WrappingInc, WithTaken;
    InvMeans(w);
    if ins.amount <= Balance(w) { RoomForAll(w, ctx.signer, ins.amount); }
  }

  lemma TradeExplained(w: World, ctx: Context, ins: Instruction)
    requires Inv(w) && Constraints(w, ctx, ins).None? && ins.WithdrawForTrade?
    requires Handled(w, ctx, ins).Err?
    ensures ErrorExplained(w, ctx, ins, Handled(w, ctx, ins).error)
  {
    hide Inv, WrappingInc, WithTaken;
    InvMeans(w);
    if ins.amount <= Balance(w) { RoomForAll(w, ctx.signer, ins.amount); }
  }

  lemma WithdrawalExplained(w: World, ctx: Context, ins: Instruction)
    requires Inv(w) && Constraints(w, ctx, ins).None? && ins.Withdraw?
    requires Handled(w, ctx, ins).Err?
    ensures ErrorExplained(w, ctx, ins, Handled(w, ctx, ins).error)
  {
    hide Inv, HasActiveAuthority, WrappingInc;
    InvMeans(w);
    if ins.amount <= Balance(w) { RoomForAll(w, ctx.signer, ins.amount); }
    ActiveMeans(w);
  }

  lemma EmergencyExplained(w: World, ctx: Context, ins: Instruction)
    requires Inv(w) && Constraints(w, ctx, ins).None? && ins.EmergencyWithdraw?
    requires Handled(w, ctx, ins).Err?
    ensures ErrorExplained(w, ctx, ins, Handled(w, ctx, ins).error)
  {
    hide Inv, HasActiveAuthority, WrappingInc;
    InvMeans(w);
    if ins.amount <= Balance(w) { RoomForAll(w, ctx.signer, ins.amount); }
    ActiveMeans(w);
  }

  lemma ClockExplained(w: World, ctx: Context, ins: Instruction)
    requires Inv(w) && Constraints(w, ctx, ins).None? && (ins.Pause? || ins.Unpause? || ins.SetMaxLifetime?)
    requires Handled(w, ctx, ins).Err?
    ensures ErrorExplained(w, ctx, ins, Handled(w, ctx, ins).error)
  {
    hide Inv, SetFlag, WrappingInc;
    InvMeans(w);
  }

  lemma CloseExplained(w: World, ctx: Context, ins: Instruction)
    requires Inv(w) && Constraints(w, ctx, ins).None? && ins.Close?
    requires Handled(w, ctx, ins).Err?
    ensures ErrorExplained(w, ctx, ins, Handled(w, ctx, ins).error)
  {
    hide Inv, HasActiveAuthority, WrappingInc;
    InvMeans(w);
    ActiveMeans(w);
  }

  lemma Explained(w: World, ctx: Context, ins: Instruction)
    requires Inv(w) && Transaction(w, ctx, ins).Err?
    ensures ErrorExplained(w, ctx, ins, Transaction(w, ctx, ins).error)
  {
    hide Inv, ErrorExplained, Handled, Constraints;
    if Constraints(w, ctx, ins).Some? {
      ConstraintExplained(w, ctx, ins);
    } else {
      match ins
      case Initialize(_, _) => InitializeExplained(w, ctx, ins);
      case Deposit(_) => DepositExplained(w, ctx, ins);
      case DelegatePlatform(_) => PlatformDelegationExplained(w, ctx, ins);
      case DelegateTrading(_) => TradingDelegationExplained(w, ctx, ins);
      case RevokePlatform => RevocationExplained(w, ctx, ins);
      case RevokeTrading => RevocationExplained(w, ctx, ins);
      case WithdrawSubscriptionFee(_) => FeeExplained(w, ctx, ins);
      case WithdrawForTrade(_) => TradeExplained(w, ctx, ins);
      case Withdraw(_) => WithdrawalExplained(w, ctx, ins);
      case EmergencyWithdraw(_) => EmergencyExplained(w, ctx, ins);
      case Pause => ClockExplained(w, ctx, ins);
      case Unpause => ClockExplained(w, ctx, ins);
      case SetMaxLifetime(_) => ClockExplained(w, ctx, ins);
      case Close => CloseExplained(w, ctx, ins);
    }
  }

  lemma Signed(w: World, ctx: Context, ins: Instruction)
    requires Transaction(w, ctx, ins).Ok?
    ensures ctx.signer != DEFAULT_KEY && ctx.signer != w.address
  {
    hide Handled;
  }

  lemma DepositPasses(w: World, ctx: Context, ins: Instruction, c: Check)
    requires Inv(w) && Transaction(w, ctx, ins).Ok? && ins.Deposit?
    ensures !Violated(w, ctx, ins, c)
  {
    hide Transaction, Inv;
    Signed(w, ctx, ins);
    if w.account.Some? { InvMeans(w); }
    DepositIff(w, ctx, ins.amount);
  }

  lemma WithdrawPasses(w: World, ctx: Context, ins: Instruction, c: Check)
    requires Inv(w) && Transaction(w, ctx, ins).Ok? && ins.Withdraw?
    ensures !Violated(w, ctx, ins, c)
  {
    hide Transaction, Inv;
    Signed(w, ctx, ins);
    if w.account.Some? { InvMeans(w); }
    OwnerWithdrawalIff(w, ctx, false, ins.amount);
  }

  lemma EmergencyPasses(w: World, ctx: Context, ins: Instruction, c: Check)
    requires Inv(w) && Transaction(w, ctx, ins).Ok? && ins.EmergencyWithdraw?
    ensures !Violated(w, ctx, ins, c)
  {
    hide Transaction, Inv;
    Signed(w, ctx, ins);
    if w.account.Some? { InvMeans(w); }
    OwnerWithdrawalIff(w, ctx, true, ins.amount);
  }

  lemma FeePasses(w: World, ctx: Context, ins: Instruction, c: Check)
    requires Inv(w) && Transaction(w, ctx, ins).Ok? && ins.WithdrawSubscriptionFee?
    ensures !Violated(w, ctx, ins, c)
  {
    hide Transaction, Inv;
    if w.account.Some? { InvMeans(w); }
    WithdrawFeeIff(w, ctx, ins.amount);
  }

  lemma TradePasses(w: World, ctx: Context, ins: Instruction, c: Check)
    requires Inv(w) && Transaction(w, ctx, ins).Ok? && ins.WithdrawForTrade?
    ensures !Violated(w, ctx, ins, c)
  {
    hide Transaction, Inv;
    if w.account.Some? { InvMeans(w); }
    WithdrawForTradeIff(w, ctx, ins.amount);
  }

  lemma DelegationPasses(w: World, ctx: Context, ins: Instruction, c: Check)
    requires Inv(w) && Transaction(w, ctx, ins).Ok?
    requires ins.DelegatePlatform? || ins.DelegateTrading?
    ensures !Violated(w, ctx, ins, c)
  {
    hide Transaction, Inv;
    Signed(w, ctx, ins);
    assert OwnerSigns(w, ctx) && w.account.value.flags & 4 == 0 && Alive(w.account.value, ctx.now)
           && ins.authority != DEFAULT_KEY
           && (ins.DelegatePlatform? ==> w.account.value.platformAuthority == DEFAULT_KEY)
           && (ins.DelegateTrading? ==> w.account.value.tradingAuthority == DEFAULT_KEY) by {
      DelegateIff(w, ctx, ins.authority);
    }
  }

  lemma RevocationPasses(w: World, ctx: Context, ins: Instruction, c: Check)
    requires Inv(w) && Transaction(w, ctx, ins).Ok?
    requires ins.RevokePlatform? || ins.RevokeTrading?
    ensures !Violated(w, ctx, ins, c)
  {
    hide Transaction, Inv;
    Signed(w, ctx, ins);
    assert OwnerSigns(w, ctx) && w.account.value.flags & 4 == 0 by { RevokeIff(w, ctx); }
  }

  lemma BeginningAndEndPass(w: World, ctx: Context, ins: Instruction, c: Check)
    requires Inv(w) && Transaction(w, ctx, ins).Ok?
    requires ins.Initialize? || ins.Close?
    ensures !Violated(w, ctx, ins, c)
  {
    hide Transaction, Inv;
    Signed(w, ctx, ins);
    match ins
    case Initialize(bump, maxBalance) => InitializeIff(w, ctx, bump, maxBalance);
    case Close => CloseIff(w, ctx);
  }

  lemma LifetimePasses(w: World, ctx: Context, ins: Instruction, c: Check)
    requires Inv(w) && Transaction(w, ctx, ins).Ok? && ins.SetMaxLifetime?
    ensures !Violated(w, ctx, ins, c)
  {
    hide Transaction, Inv;
    Signed(w, ctx, ins);
    if w.account.Some? { InvMeans(w); }
    assert OwnerSigns(w, ctx) && ins.seconds >= 0 by { SetMaxLifetimeIff(w, ctx, ins.seconds); }
  }

  lemma PausePasses(w: World, ctx: Context, ins: Instruction, c: Check)
    requires Inv(w) && Transaction(w, ctx, ins).Ok? && ins.Pause?
    ensures !Violated(w, ctx, ins, c)
  {
    hide Transaction, Inv, NoAuthority;
    Signed(w, ctx, ins);
    assert OwnerSigns(w, ctx) by { PauseIff(w, ctx); }
  }

  lemma UnpausePasses(w: World, ctx: Context, ins: Instruction, c: Check)
    requires Inv(w) && Transaction(w, ctx, ins).Ok? && ins.Unpause?
    ensures !Violated(w, ctx, ins, c)
  {
    hide Transaction, Inv, NoAuthority;
    Signed(w, ctx, ins);
    assert w.account.Some? by { PauseIff(w, ctx); }
    var since := w.account.value.lastPausedAt;
    assert OwnerSigns(w, ctx) && (since == 0 || FiveMinutesSince(since, ctx.now)) by { PauseIff(w, ctx); }
  }

  lemma NothingViolated(w: World, ctx: Context, ins: Instruction, c: Check)
    requires Inv(w) && Transaction(w, ctx, ins).Ok?
    ensures !Violated(w, ctx, ins, c)
  {
    hide Transaction, Inv, Violated;
    if ins.Deposit? {
      DepositPasses(w, ctx, ins, c);
    } else if ins.Withdraw? {
      WithdrawPasses(w, ctx, ins, c);
    } else if ins.EmergencyWithdraw? {
      EmergencyPasses(w, ctx, ins, c);
    } else if ins.WithdrawSubscriptionFee? {
      FeePasses(w, ctx, ins, c);
    } else if ins.WithdrawForTrade? {
      TradePasses(w, ctx, ins, c);
    } else if ins.DelegatePlatform? || ins.DelegateTrading? {
      DelegationPasses(w, ctx, ins, c);
    } else if ins.RevokePlatform? || ins.RevokeTrading? {
      RevocationPasses(w, ctx, ins, c);
    } else if ins.Initialize? || ins.Close? {
      BeginningAndEndPass(w, ctx, ins, c);
    } else if ins.SetMaxLifetime? {
      LifetimePasses(w, ctx, ins, c);
    } else if ins.Pause? {
      PausePasses(w, ctx, ins, c);
    } else {
      UnpausePasses(w, ctx, ins, c);
    }
  }

  lemma SameRank(c: Check, d: Check)
    requires Rank(c) == Rank(d)
    ensures c == d
  {
  }

  /** A transaction is refused exactly if it fails some check, and then with the error of
      the first check that it fails. */
  lemma ErrorIffFirstFailure(w: World, ctx: Context, ins: Instruction)
    requires Inv(w)
    ensures Transaction(w, ctx, ins).Err? <==> exists c :: Violated(w, ctx, ins, c)
    ensures forall c :: FirstFailure(w, ctx, ins, c) ==> Transaction(w, ctx, ins) == Err(Reports(ins, c))
  {
    hide Transaction, Violated, Reports, Inv, Rank, Blamed;
    if Transaction(w, ctx, ins).Err? {
      Explained(w, ctx, ins);
      var b := Blamed(w, ins, Transaction(w, ctx, ins).error);
      forall c | FirstFailure(w, ctx, ins, c)
        ensures Transaction(w, ctx, ins) == Err(Reports(ins, c))
      {
        SameRank(b, c);
      }
    } else {
      forall c ensures !Violated(w, ctx, ins, c) {
        NothingViolated(w, ctx, ins, c);
      }
    }
  }
}
