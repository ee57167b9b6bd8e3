/** The escrow account as stored on chain, its flag word and its clock checks. */
module EscrowState {
  import opened Machine

  function Zeros(n: nat): (s: seq<u8>)
    ensures |s| == n
    ensures forall i :: 0 <= i < n ==> s[i] == 0
  {
    seq(n, _ => 0)
  }

  /** A Solana public key: 32 bytes. */
  type Pubkey = s: seq<u8> | |s| == 32 witness Zeros(32)

  const DEFAULT_KEY: Pubkey := Zeros(32)

  const DEFAULT_MAX_BALANCE: u64 := 1_000_000_000_000
  const MAX_ALLOWED_BALANCE: u64 := 10_000_000_000_000
  const MAX_TRANSACTION_AMOUNT: u64 := 100_000_000_000
  const MAX_SUBSCRIPTION_FEE: u64 := 1_000_000_000
  const DUST_THRESHOLD: u64 := 10
  const MIN_AUTHORITY_AGE: i64 := 300
  const UNPAUSE_COOLDOWN: i64 := 300
  const MIN_TOKEN_DECIMALS: u8 := 6
  const MAX_TOKEN_DECIMALS: u8 := 9
  const MIN_RENT_EXEMPT_LAMPORTS: u64 := 2_039_280

  const FLAG_PLATFORM_ACTIVE: bv8 := 1
  const FLAG_TRADING_ACTIVE: bv8 := 2
  const FLAG_PAUSED: bv8 := 4
  const FLAGS_RESERVED: bv8 := 0xF8

  type Reserved = s: seq<u8> | |s| == 176 witness Zeros(176)

  const NO_RESERVED: Reserved := Zeros(176)

  datatype Account = Account(
    user: Pubkey,
    platformAuthority: Pubkey,
    tradingAuthority: Pubkey,
    tokenMint: Pubkey,
    bump: u8,
    flags: bv8,
    createdAt: i64,
    platformActivatedAt: i64,
    tradingActivatedAt: i64,
    lastPausedAt: i64,
    actionNonce: u64,
    totalDeposited: u64,
    totalWithdrawn: u64,
    totalFeesPaid: u64,
    totalTraded: u64,
    maxBalance: u64,
    maxLifetime: i64,
    reserved: Reserved)

  function SetFlag(flags: bv8, bit: bv8, on: bool): bv8 {
    if on then flags | bit else flags & !bit
  }

  predicate HasFlag(flags: bv8, bit: bv8) {
    flags & bit != 0
  }

  predicate IsPaused(a: Account) {
    HasFlag(a.flags, FLAG_PAUSED)
  }

  /** The two delegated roles have the same life cycle; the specification
      treats them uniformly while the program has one handler for each. */
  datatype Role = Platform | Trading

  function RoleFlag(role: Role): bv8 {
    match role
    case Platform => FLAG_PLATFORM_ACTIVE
    case Trading => FLAG_TRADING_ACTIVE
  }

  function Authority(a: Account, role: Role): Pubkey {
    match role
    case Platform => a.platformAuthority
    case Trading => a.tradingAuthority
  }

  function ActivatedAt(a: Account, role: Role): i64 {
    match role
    case Platform => a.platformActivatedAt
    case Trading => a.tradingActivatedAt
  }

  /** What a role has taken out so far. */
  function Taken(a: Account, role: Role): u64 {
    match role
    case Platform => a.totalFeesPaid
    case Trading => a.totalTraded
  }

  /** The most a role may take in one call. */
  function Cap(role: Role): u64 {
    match role
    case Platform => MAX_SUBSCRIPTION_FEE
    case Trading => MAX_TRANSACTION_AMOUNT
  }

  predicate IsActive(a: Account, role: Role) {
    HasFlag(a.flags, RoleFlag(role))
  }

  predicate HasActiveAuthority(a: Account) {
    IsActive(a, Platform) || IsActive(a, Trading)
  }

  /** The clock checks subtract two i64 timestamps; None is the overflow panic. */
  function IsExpired(a: Account, now: i64): Option<bool> {
    if a.maxLifetime == 0 then Some(false)
    else match CheckedSub(now, a.createdAt)
      case None => None
      case Some(age) => Some(age > a.maxLifetime)
  }

  function CanUnpause(a: Account, now: i64): Option<bool> {
    if a.lastPausedAt == 0 then Some(true)
    else match CheckedSub(now, a.lastPausedAt)
      case None => None
      case Some(elapsed) => Some(elapsed >= UNPAUSE_COOLDOWN)
  }

  function IsMature(a: Account, role: Role, now: i64): Option<bool> {
    if ActivatedAt(a, role) == 0 then Some(false)
    else match CheckedSub(now, ActivatedAt(a, role))
      case None => None
      case Some(age) => Some(age >= MIN_AUTHORITY_AGE)
  }

  /** Each of the three flags is independent of the other two, and no setter
      reaches the reserved bits. */
  lemma FlagsIndependent(flags: bv8, bit: bv8, other: bv8, on: bool)
    requires bit in {FLAG_PLATFORM_ACTIVE, FLAG_TRADING_ACTIVE, FLAG_PAUSED}
    requires other in {FLAG_PLATFORM_ACTIVE, FLAG_TRADING_ACTIVE, FLAG_PAUSED}
    ensures HasFlag(SetFlag(flags, bit, on), bit) <==> on
    ensures other != bit ==> (HasFlag(SetFlag(flags, bit, on), other) <==> HasFlag(flags, other))
    ensures SetFlag(flags, bit, on) & FLAGS_RESERVED == flags & FLAGS_RESERVED
  {
  }

  /** The deserialised account that an instruction handler borrows and updates in
      place; it is written back to the chain only when the handler succeeds. */
  class EscrowAccount {
    var user: Pubkey
    var platformAuthority: Pubkey
    var tradingAuthority: Pubkey
    var tokenMint: Pubkey
    var bump: u8
    var flags: bv8
    var createdAt: i64
    var platformActivatedAt: i64
    var tradingActivatedAt: i64
    var lastPausedAt: i64
    var actionNonce: u64
    var totalDeposited: u64
    var totalWithdrawn: u64
    var totalFeesPaid: u64
    var totalTraded: u64
    var maxBalance: u64
    var maxLifetime: i64
    var reserved: Reserved

    constructor (a: Account)
      ensures View() == a
    {
      user, platformAuthority, tradingAuthority, tokenMint :=
        a.user, a.platformAuthority, a.tradingAuthority, a.tokenMint;
      bump, flags, createdAt := a.bump, a.flags, a.createdAt;
      platformActivatedAt, tradingActivatedAt, lastPausedAt :=
        a.platformActivatedAt, a.tradingActivatedAt, a.lastPausedAt;
      actionNonce, totalDeposited, totalWithdrawn := a.actionNonce, a.totalDeposited, a.totalWithdrawn;
      totalFeesPaid, totalTraded := a.totalFeesPaid, a.totalTraded;
      maxBalance, maxLifetime, reserved := a.maxBalance, a.maxLifetime, a.reserved;
    }

    function View(): Account
      reads this
    {
      Account(user, platformAuthority, tradingAuthority, tokenMint, bump, flags, createdAt,
              platformActivatedAt, tradingActivatedAt, lastPausedAt, actionNonce,
              totalDeposited, totalWithdrawn, totalFeesPaid, totalTraded,
              maxBalance, maxLifetime, reserved)
    }

    method SetPlatformActive(active: bool)
      modifies this`flags
      ensures HasFlag(flags, FLAG_PLATFORM_ACTIVE) <==> active
      ensures flags == SetFlag(old(flags), FLAG_PLATFORM_ACTIVE, active)
    {
      if active { flags := flags | FLAG_PLATFORM_ACTIVE; } else { flags := flags & !FLAG_PLATFORM_ACTIVE; }
    }

    method SetTradingActive(active: bool)
      modifies this`flags
      ensures HasFlag(flags, FLAG_TRADING_ACTIVE) <==> active
      ensures flags == SetFlag(old(flags), FLAG_TRADING_ACTIVE, active)
    {
      if active { flags := flags | FLAG_TRADING_ACTIVE; } else { flags := flags & !FLAG_TRADING_ACTIVE; }
    }

    method SetPaused(paused: bool, timestamp: i64)
      modifies this`flags, this`lastPausedAt
      ensures HasFlag(flags, FLAG_PAUSED) <==> paused
      ensures flags == SetFlag(old(flags), FLAG_PAUSED, paused)
      ensures lastPausedAt == if paused then timestamp else old(lastPausedAt)
    {
      if paused {
        flags := flags | FLAG_PAUSED;
        lastPausedAt := timestamp;
      } else {
        flags := flags & !FLAG_PAUSED;
      }
    }
  }
}
