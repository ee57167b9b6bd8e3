/** What a committed transaction presupposes and what it does to the account, without the
    ledger, the error branches and the order of the checks. */
module EscrowEffects {
  import opened Machine
  import opened EscrowState
  import opened EscrowSpec

  ghost predicate Delegation(a: Account, b: Account, ctx: Context, role: Role, key: Pubkey) {
    && !IsPaused(a) && key != DEFAULT_KEY && Authority(a, role) == DEFAULT_KEY
    && b == WithRole(a, role, key, true, ctx.now)
  }

  ghost predicate Revocation(a: Account, b: Account, role: Role) {
    !IsPaused(a) && b == WithRole(a, role, DEFAULT_KEY, false, 0)
  }

  ghost predicate RoleTaking(a: Account, b: Account, ctx: Context, role: Role, amount: u64) {
    && !IsPaused(a) && 0 < amount <= Cap(role)
    && ctx.signer == Authority(a, role) && IsMature(a, role, ctx.now) == Some(true)
    && Taken(a, role) + amount <= U64_MAX
    && b == WithTaken(a, role, Taken(a, role) + amount)
  }

  ghost predicate OwnerTaking(a: Account, b: Account, emergency: bool, amount: u64) {
    && IsPaused(a) == emergency && !HasActiveAuthority(a)
    && 0 < amount && a.totalWithdrawn + amount <= U64_MAX
    && b == a.(totalWithdrawn := a.totalWithdrawn + amount, actionNonce := WrappingInc(a.actionNonce))
  }

  /** From account `a` to account `b` by any instruction but the first and the last. */
  ghost predicate Effect(a: Account, b: Account, ctx: Context, ins: Instruction) {
    var nonce := WrappingInc(a.actionNonce);
    match ins
    case Deposit(amount) =>
      && !IsPaused(a) && a.totalDeposited + amount <= U64_MAX
      && b == a.(totalDeposited := a.totalDeposited + amount, actionNonce := nonce)
    case DelegatePlatform(key) => Delegation(a, b, ctx, Platform, key)
    case DelegateTrading(key) => Delegation(a, b, ctx, Trading, key)
    case RevokePlatform => Revocation(a, b, Platform)
    case RevokeTrading => Revocation(a, b, Trading)
    case WithdrawSubscriptionFee(amount) => RoleTaking(a, b, ctx, Platform, amount)
    case WithdrawForTrade(amount) => RoleTaking(a, b, ctx, Trading, amount)
    case Withdraw(amount) => OwnerTaking(a, b, false, amount)
    case EmergencyWithdraw(amount) => OwnerTaking(a, b, true, amount)
    case Pause =>
      b == a.(flags := SetFlag(a.flags, FLAG_PAUSED, true), lastPausedAt := ctx.now, actionNonce := nonce)
    case Unpause =>
      && CanUnpause(a, ctx.now) == Some(true)
      && b == a.(flags := SetFlag(a.flags, FLAG_PAUSED, false), actionNonce := nonce)
    case SetMaxLifetime(seconds) => seconds >= 0 && b == a.(maxLifetime := seconds, actionNonce := nonce)
    case _ => false
  }

  predicate Delegates(ins: Instruction, role: Role, key: Pubkey) {
    match role
    case Platform => ins == DelegatePlatform(key)
    case Trading => ins == DelegateTrading(key)
  }

  predicate Appoints(ins: Instruction, role: Role) {
    match role
    case Platform => ins.DelegatePlatform?
    case Trading => ins.DelegateTrading?
  }

  predicate Revokes(ins: Instruction, role: Role) {
    match role
    case Platform => ins.RevokePlatform?
    case Trading => ins.RevokeTrading?
  }

  /** A role's key and activation time move with its own delegation and revocation only. */
  lemma EffectOnRole(a: Account, b: Account, ctx: Context, ins: Instruction, role: Role)
    requires Effect(a, b, ctx, ins)
    ensures if Appoints(ins, role) then
              && Delegates(ins, role, Authority(b, role)) && Authority(b, role) != DEFAULT_KEY
              && ActivatedAt(b, role) == ctx.now && !IsPaused(a)
            else if Revokes(ins, role) then
              Authority(b, role) == DEFAULT_KEY && ActivatedAt(b, role) == 0 && !IsPaused(a)
            else
              Authority(b, role) == Authority(a, role) && ActivatedAt(b, role) == ActivatedAt(a, role)
  {
    hide HasFlag, SetFlag, IsMature, CanUnpause, WrappingInc;
  }

  /** The flag that an instruction sets or clears. */
  function FlagOf(ins: Instruction): bv8 {
    match ins
    case DelegatePlatform(_) => FLAG_PLATFORM_ACTIVE
    case RevokePlatform => FLAG_PLATFORM_ACTIVE
    case DelegateTrading(_) => FLAG_TRADING_ACTIVE
    case RevokeTrading => FLAG_TRADING_ACTIVE
    case Pause => FLAG_PAUSED
    case Unpause => FLAG_PAUSED
    case _ => 0
  }

  predicate Raises(ins: Instruction) {
    ins.DelegatePlatform? || ins.DelegateTrading? || ins.Pause?
  }

  lemma EffectSetsFlag(a: Account, b: Account, ctx: Context, ins: Instruction)
    requires Effect(a, b, ctx, ins)
    ensures b.flags == if FlagOf(ins) == 0 then a.flags else SetFlag(a.flags, FlagOf(ins), Raises(ins))
  {
    hide HasFlag, SetFlag, IsMature, CanUnpause, WrappingInc;
  }

  lemma FlagsMoved(before: bv8, ins: Instruction, role: Role)
    requires FlagOf(ins) != 0
    ensures var after := SetFlag(before, FlagOf(ins), Raises(ins));
            && (HasFlag(after, RoleFlag(role)) <==>
                  Appoints(ins, role) || (HasFlag(before, RoleFlag(role)) && !Revokes(ins, role)))
            && (HasFlag(after, FLAG_PAUSED) <==> ins.Pause? || (HasFlag(before, FLAG_PAUSED) && !ins.Unpause?))
            && after & FLAGS_RESERVED == before & FLAGS_RESERVED
  {
    hide HasFlag, SetFlag;
    FlagsIndependent(before, FlagOf(ins), RoleFlag(role), Raises(ins));
    FlagsIndependent(before, FlagOf(ins), FLAG_PAUSED, Raises(ins));
  }

  /** Each flag moves with the instructions that are meant to move it. */
  lemma EffectOnFlags(a: Account, b: Account, ctx: Context, ins: Instruction, role: Role)
    requires Effect(a, b, ctx, ins)
    ensures IsActive(b, role) <==> Appoints(ins, role) || (IsActive(a, role) && !Revokes(ins, role))
    ensures IsPaused(b) <==> ins.Pause? || (IsPaused(a) && !ins.Unpause?)
    ensures b.flags & FLAGS_RESERVED == a.flags & FLAGS_RESERVED
  {
    hide Effect, HasFlag, SetFlag;
    EffectSetsFlag(a, b, ctx, ins);
    if FlagOf(ins) != 0 {
      FlagsMoved(a.flags, ins, role);
    }
  }

  lemma EffectCounts(a: Account, b: Account, ctx: Context, ins: Instruction)
    requires Effect(a, b, ctx, ins)
    ensures b.actionNonce == WrappingInc(a.actionNonce)
  {
    hide HasFlag, SetFlag, IsMature, CanUnpause, WrappingInc;
  }

  /** The account's side of a committed transaction. */
  ghost predicate Commits(w: World, next: World, ctx: Context, ins: Instruction) {
    && next.address == w.address
    && match ins
       case Initialize(bump, maxBalance) =>
         && w.account.None? && maxBalance <= MAX_ALLOWED_BALANCE
         && ctx.signer != w.address && ctx.signer != DEFAULT_KEY
         && next.account == Some(Initial(ctx, bump, maxBalance))
       case Close =>
         && w.account.Some? && next.account.None?
         && !IsPaused(w.account.value) && !HasActiveAuthority(w.account.value)
       case _ => w.account.Some? && next.account.Some? && Effect(w.account.value, next.account.value, ctx, ins)
  }

  lemma Committed(w: World, ctx: Context, ins: Instruction)
    requires Transaction(w, ctx, ins).Ok?
    ensures Commits(w, Transaction(w, ctx, ins).value, ctx, ins)
  {
    hide HasFlag, SetFlag, IsMature, IsExpired, CanUnpause, Transfer, WrappingInc, WithRole;
  }

  /** The ledger's side of a committed transaction. */
  ghost predicate Moves(w: World, next: World, ctx: Context, ins: Instruction) {
    if ins.Initialize? then next.ledger == w.ledger[w.address := 0]
    else if ins.Close? then
      w.address in w.ledger && Balance(w) <= DUST_THRESHOLD && next.ledger == w.ledger - {w.address}
    else if ins.Deposit? then
      ctx.signer != w.address && Transfer(w.ledger, ctx.signer, w.address, ins.amount) == Moved(next.ledger)
    else if MovesTokens(ins) then
      ctx.signer != w.address && Transfer(w.ledger, w.address, ctx.signer, ins.amount) == Moved(next.ledger)
    else next.ledger == w.ledger
  }

  lemma LedgerCommitted(w: World, ctx: Context, ins: Instruction)
    requires Transaction(w, ctx, ins).Ok?
    ensures Moves(w, Transaction(w, ctx, ins).value, ctx, ins)
  {
    hide HasFlag, SetFlag, IsMature, IsExpired, CanUnpause, Transfer, WrappingInc, WithRole, WithTaken, Taken;
  }

  /** What an event may do to the account, committed or not. */
  lemma Stepped(w: World, e: Event)
    ensures Step(w, e).Err? ==> Next(w, e) == w
    ensures Step(w, e).Ok? ==> if e.WalletTransfer? then Next(w, e).account == w.account
                               else Commits(w, Next(w, e), e.ctx, e.ins)
  {
    if e.Invoke? && Step(w, e).Ok? {
      Committed(w, e.ctx, e.ins);
    }
    hide Transaction, Transfer;
  }
}
