/** One transaction against the escrow, as a function on values: the state that is
    committed, or the error that aborts it and leaves everything as it was. */
module EscrowSpec {
  import opened Machine
  import opened EscrowState
  import MapSum

  /** Token accounts of the escrow's mint, by owner. */
  type Ledger = map<Pubkey, u64>

  ghost function Supply(ledger: Ledger): nat {
    MapSum.Total<Pubkey>(ledger)
  }

  datatype Error =
    | Unauthorized | InvalidAmount | InsufficientBalance | EscrowStillActive | EscrowNotEmpty
    | MathOverflow | InvalidAuthority | EscrowPaused | EscrowNotPaused | MaxBalanceExceeded
    | AmountTooLarge | InvalidTokenMint | EscrowExpired | InvalidLifetime
    | PlatformAuthorityTooNew | TradingAuthorityTooNew | CooldownNotElapsed
    | InvalidTokenDecimals | RentNotRecovered | UnauthorizedPlatform | UnauthorizedTrading
    | PlatformAuthorityAlreadySet | TradingAuthorityAlreadySet
    // raised by the runtime, not by the program's own error enumeration
    | ArithmeticPanic | MissingSignature | AccountNotInitialized | AccountInUse | TokenProgramError

  datatype Instruction =
    | Initialize(bump: u8, maxBalance: u64)
    | Deposit(amount: u64)
    | DelegatePlatform(authority: Pubkey)
    | DelegateTrading(authority: Pubkey)
    | RevokePlatform
    | RevokeTrading
    | WithdrawSubscriptionFee(amount: u64)
    | WithdrawForTrade(amount: u64)
    | Withdraw(amount: u64)
    | EmergencyWithdraw(amount: u64)
    | Pause
    | Unpause
    | SetMaxLifetime(seconds: i64)
    | Close

  /** What a transaction brings along: its signer, the mint account passed in and its
      decimals, the rent held by the token account, the clock, and whether the token
      program accepts the closing of the escrow's token account. */
  datatype Context = Context(signer: Pubkey, mint: Pubkey, decimals: u8, lamports: u64, now: i64, closeAccepted: bool)

  /** The escrow's address owns the token account that holds the deposited tokens. */
  datatype World = World(address: Pubkey, account: Option<Account>, ledger: Ledger)

  type Outcome = Result<World, Error>

  datatype Move = Moved(ledger: Ledger) | Refused(error: Error)

  /** `token::transfer`: an atomic ledger move or an error. */
  function Transfer(ledger: Ledger, from: Pubkey, to: Pubkey, amount: u64): Move {
    if from !in ledger || to !in ledger then Refused(AccountNotInitialized)
    else if ledger[from] < amount then Refused(TokenProgramError)
    else if from == to then Moved(ledger)
    else if ledger[to] + amount > U64_MAX then Refused(TokenProgramError)
    else Moved(ledger[from := ledger[from] - amount][to := ledger[to] + amount])
  }

  predicate OwnerOnly(ins: Instruction) {
    !ins.WithdrawSubscriptionFee? && !ins.WithdrawForTrade?
  }

  predicate MovesTokens(ins: Instruction) {
    || ins.Deposit? || ins.WithdrawSubscriptionFee? || ins.WithdrawForTrade?
    || ins.Withdraw? || ins.EmergencyWithdraw?
  }

  /** The account constraints checked before a handler runs. Neither the escrow's own
      address, which is derived from the program, nor the all-zero key, which is the
      system program's, has a private key that could sign a transaction. */
  function Constraints(w: World, ctx: Context, ins: Instruction): Option<Error> {
    if ctx.signer == w.address || ctx.signer == DEFAULT_KEY then Some(MissingSignature)
    else if ins.Initialize? then if w.account.Some? then Some(AccountInUse) else None
    else if w.account.None? then Some(AccountNotInitialized)
    else if (MovesTokens(ins) || ins.Close?) && w.address !in w.ledger then Some(AccountNotInitialized)
    else if OwnerOnly(ins) && ctx.signer != w.account.value.user then Some(Unauthorized)
    else if MovesTokens(ins) && ctx.mint != w.account.value.tokenMint then Some(InvalidTokenMint)
    else if MovesTokens(ins) && ctx.signer !in w.ledger then Some(AccountNotInitialized)
    else None
  }

  function Initial(ctx: Context, bump: u8, maxBalance: u64): Account {
    Account(ctx.signer, DEFAULT_KEY, DEFAULT_KEY, ctx.mint, bump, 0, ctx.now, 0, 0, 0, 0, 0, 0, 0, 0,
            if maxBalance == 0 then DEFAULT_MAX_BALANCE else maxBalance, 0, NO_RESERVED)
  }

  function Initialized(w: World, ctx: Context, bump: u8, maxBalance: u64): Outcome {
    if maxBalance > MAX_ALLOWED_BALANCE then Err(MaxBalanceExceeded)
    else if !(MIN_TOKEN_DECIMALS <= ctx.decimals <= MAX_TOKEN_DECIMALS) then Err(InvalidTokenDecimals)
    else Ok(w.(account := Some(Initial(ctx, bump, maxBalance)), ledger := w.ledger[w.address := 0]))
  }

  /** Commits the updated account together with a move of tokens. */
  function Settle(w: World, a: Account, from: Pubkey, to: Pubkey, amount: u64): Outcome {
    match Transfer(w.ledger, from, to, amount)
    case Refused(error) => Err(error)
    case Moved(ledger) => Ok(w.(account := Some(a), ledger := ledger))
  }

  function Deposited(w: World, a: Account, balance: u64, ctx: Context, amount: u64): Outcome {
    if IsPaused(a) then Err(EscrowPaused)
    else if amount == 0 then Err(InvalidAmount)
    else if IsExpired(a, ctx.now).None? then Err(ArithmeticPanic)
    else if IsExpired(a, ctx.now).value then Err(EscrowExpired)
    else if balance + amount > U64_MAX then Err(MathOverflow)
    else if a.maxBalance > 0 && balance + amount > a.maxBalance then Err(MaxBalanceExceeded)
    else if a.totalDeposited + amount > U64_MAX then Err(MathOverflow)
    else
      Settle(w, a.(totalDeposited := a.totalDeposited + amount, actionNonce := WrappingInc(a.actionNonce)),
             ctx.signer, w.address, amount)
  }

  function WithRole(a: Account, role: Role, key: Pubkey, active: bool, at: i64): Account {
    var flags := SetFlag(a.flags, RoleFlag(role), active);
    var nonce := WrappingInc(a.actionNonce);
    match role
    case Platform => a.(platformAuthority := key, flags := flags, platformActivatedAt := at, actionNonce := nonce)
    case Trading => a.(tradingAuthority := key, flags := flags, tradingActivatedAt := at, actionNonce := nonce)
  }

  function Delegated(w: World, a: Account, ctx: Context, role: Role, key: Pubkey): Outcome {
    if IsPaused(a) then Err(EscrowPaused)
    else if key == DEFAULT_KEY then Err(InvalidAuthority)
    else if Authority(a, role) != DEFAULT_KEY then
      Err(if role.Platform? then PlatformAuthorityAlreadySet else TradingAuthorityAlreadySet)
    else if IsExpired(a, ctx.now).None? then Err(ArithmeticPanic)
    else if IsExpired(a, ctx.now).value then Err(EscrowExpired)
    else Ok(w.(account := Some(WithRole(a, role, key, true, ctx.now))))
  }

  function Revoked(w: World, a: Account, role: Role): Outcome {
    if IsPaused(a) then Err(EscrowPaused)
    else Ok(w.(account := Some(WithRole(a, role, DEFAULT_KEY, false, 0))))
  }

  function WithTaken(a: Account, role: Role, total: u64): Account {
    var nonce := WrappingInc(a.actionNonce);
    match role
    case Platform => a.(totalFeesPaid := total, actionNonce := nonce)
    case Trading => a.(totalTraded := total, actionNonce := nonce)
  }

  function TakenByRole(w: World, a: Account, balance: u64, ctx: Context, role: Role, amount: u64): Outcome {
    if IsPaused(a) then Err(EscrowPaused)
    else if amount == 0 then Err(InvalidAmount)
    else if amount > Cap(role) then Err(AmountTooLarge)
    else if ctx.signer != Authority(a, role) then
      Err(if role.Platform? then UnauthorizedPlatform else UnauthorizedTrading)
    else if IsMature(a, role, ctx.now).None? then Err(ArithmeticPanic)
    else if !IsMature(a, role, ctx.now).value then
      Err(if role.Platform? then PlatformAuthorityTooNew else TradingAuthorityTooNew)
    else if amount > balance then Err(InsufficientBalance)
    else if Taken(a, role) + amount > U64_MAX then Err(MathOverflow)
    else Settle(w, WithTaken(a, role, Taken(a, role) + amount), w.address, ctx.signer, amount)
  }

  /** The owner's two ways out differ only in the pause state they ask for. */
  function TakenByOwner(w: World, a: Account, balance: u64, ctx: Context, emergency: bool, amount: u64): Outcome {
    if IsPaused(a) != emergency then Err(if emergency then EscrowNotPaused else EscrowPaused)
    else if HasActiveAuthority(a) then Err(EscrowStillActive)
    else if amount == 0 then Err(InvalidAmount)
    else if amount > balance then Err(InsufficientBalance)
    else if a.totalWithdrawn + amount > U64_MAX then Err(MathOverflow)
    else
      Settle(w, a.(totalWithdrawn := a.totalWithdrawn + amount, actionNonce := WrappingInc(a.actionNonce)),
             w.address, ctx.signer, amount)
  }

  function Unpaused(w: World, a: Account, ctx: Context): Outcome {
    if CanUnpause(a, ctx.now).None? then Err(ArithmeticPanic)
    else if !CanUnpause(a, ctx.now).value then Err(CooldownNotElapsed)
    else Ok(w.(account := Some(a.(flags := SetFlag(a.flags, FLAG_PAUSED, false),
                                  actionNonce := WrappingInc(a.actionNonce)))))
  }

  function Closed(w: World, a: Account, balance: u64, ctx: Context): Outcome {
    if IsPaused(a) then Err(EscrowPaused)
    else if HasActiveAuthority(a) then Err(EscrowStillActive)
    else if balance > DUST_THRESHOLD then Err(EscrowNotEmpty)
    else if ctx.lamports < MIN_RENT_EXEMPT_LAMPORTS then Err(RentNotRecovered)
    else if !ctx.closeAccepted then Err(TokenProgramError)
    else Ok(w.(account := None, ledger := w.ledger - {w.address}))
  }

  /** The tokens in the escrow's token account. */
  function Balance(w: World): u64 {
    if w.address in w.ledger then w.ledger[w.address] else 0
  }

  /** The handler that an instruction selects, once the account constraints hold. */
  function Handled(w: World, ctx: Context, ins: Instruction): Outcome
    requires Constraints(w, ctx, ins).None?
  {
    if ins.Initialize? then Initialized(w, ctx, ins.bump, ins.maxBalance)
    else
      var a, balance := w.account.value, Balance(w);
      match ins
      case Deposit(amount) => Deposited(w, a, balance, ctx, amount)
      case DelegatePlatform(key) => Delegated(w, a, ctx, Platform, key)
      case DelegateTrading(key) => Delegated(w, a, ctx, Trading, key)
      case RevokePlatform => Revoked(w, a, Platform)
      case RevokeTrading => Revoked(w, a, Trading)
      case WithdrawSubscriptionFee(amount) => TakenByRole(w, a, balance, ctx, Platform, amount)
      case WithdrawForTrade(amount) => TakenByRole(w, a, balance, ctx, Trading, amount)
      case Withdraw(amount) => TakenByOwner(w, a, balance, ctx, false, amount)
      case EmergencyWithdraw(amount) => TakenByOwner(w, a, balance, ctx, true, amount)
      case Pause =>
        Ok(w.(account := Some(a.(flags := SetFlag(a.flags, FLAG_PAUSED, true), lastPausedAt := ctx.now,
                                 actionNonce := WrappingInc(a.actionNonce)))))
      case Unpause => Unpaused(w, a, ctx)
      case SetMaxLifetime(seconds) =>
        if seconds < 0 then Err(InvalidLifetime)
        else Ok(w.(account := Some(a.(maxLifetime := seconds, actionNonce := WrappingInc(a.actionNonce)))))
      case Close => Closed(w, a, balance, ctx)
  }

  function Transaction(w: World, ctx: Context, ins: Instruction): Outcome {
    match Constraints(w, ctx, ins)
    case Some(e) => Err(e)
    case None => Handled(w, ctx, ins)
  }

  /** Besides transactions, any wallet may move its own tokens, also into the escrow. */
  datatype Event =
    | Invoke(ctx: Context, ins: Instruction)
    | WalletTransfer(from: Pubkey, to: Pubkey, amount: u64)

  function Step(w: World, e: Event): Outcome {
    match e
    case Invoke(ctx, ins) => Transaction(w, ctx, ins)
    case WalletTransfer(from, to, amount) =>
      if from == w.address then Err(MissingSignature)
      else
        match Transfer(w.ledger, from, to, amount)
        case Refused(error) => Err(error)
        case Moved(ledger) => Ok(w.(ledger := ledger))
  }

  /** A failed event commits nothing. */
  function Next(w: World, e: Event): World {
    match Step(w, e)
    case Ok(next) => next
    case Err(_) => w
  }

  /** Before its first initialisation the escrow has neither an account nor tokens, and
      the supply of the mint fits in u64. */
  ghost predicate Genesis(w: World) {
    w.account.None? && w.address !in w.ledger && Supply(w.ledger) <= U64_MAX
  }

  /** The world after the first n events. */
  function At(w: World, es: seq<Event>, n: nat): World
    requires n <= |es|
  {
    if n == 0 then w else Next(At(w, es, n - 1), es[n - 1])
  }

  /** Event k of the run is committed. */
  predicate Succeeds(w: World, es: seq<Event>, k: nat) {
    k < |es| && Step(At(w, es, k), es[k]).Ok?
  }
}
