/** Instruction data on the wire: an eight-byte tag and the arguments. The bridge writes
    it, the program selects a handler by the tag and reads the arguments back. */
module InstructionCodec {
  import opened Machine
  import opened EscrowState
  import opened EscrowSpec
  import opened AccountCodec

  datatype Kind =
    | KInitialize | KDeposit | KDelegatePlatform | KDelegateTrading | KRevokePlatform | KRevokeTrading
    | KWithdrawFee | KWithdrawForTrade | KWithdraw | KEmergencyWithdraw | KPause | KUnpause | KClose
    | KSetMaxLifetime

  /** The discriminators of the program's interface. */
  function Tag(k: Kind): (tag: Bytes)
    ensures |tag| == 8
  {
    match k
    case KInitialize => [243, 160, 77, 153, 11, 92, 48, 209]
    case KDeposit => [11, 156, 96, 218, 39, 163, 180, 19]
    case KDelegatePlatform => [126, 172, 138, 174, 184, 236, 63, 169]
    case KDelegateTrading => [164, 159, 115, 90, 166, 214, 57, 95]
    case KRevokePlatform => [7, 7, 103, 233, 134, 154, 157, 153]
    case KRevokeTrading => [207, 57, 250, 223, 186, 166, 244, 101]
    case KWithdrawFee => [203, 153, 47, 13, 242, 238, 168, 197]
    case KWithdrawForTrade => [94, 156, 46, 103, 177, 6, 178, 118]
    case KWithdraw => [136, 235, 181, 5, 101, 109, 57, 81]
    case KEmergencyWithdraw => [239, 45, 203, 64, 150, 73, 218, 92]
    case KPause => [201, 149, 247, 168, 83, 194, 230, 251]
    case KUnpause => [90, 30, 199, 250, 91, 20, 91, 20]
    case KClose => [139, 171, 94, 146, 191, 91, 144, 50]
    case KSetMaxLifetime => [22, 179, 32, 185, 30, 36, 9, 217]
  }

  const KINDS: seq<Kind> :=
    [KInitialize, KDeposit, KDelegatePlatform, KDelegateTrading, KRevokePlatform, KRevokeTrading,
     KWithdrawFee, KWithdrawForTrade, KWithdraw, KEmergencyWithdraw, KPause, KUnpause, KClose, KSetMaxLifetime]

  function KindOf(ins: Instruction): Kind {
    match ins
    case Initialize(_, _) => KInitialize
    case Deposit(_) => KDeposit
    case DelegatePlatform(_) => KDelegatePlatform
    case DelegateTrading(_) => KDelegateTrading
    case RevokePlatform => KRevokePlatform
    case RevokeTrading => KRevokeTrading
    case WithdrawSubscriptionFee(_) => KWithdrawFee
    case WithdrawForTrade(_) => KWithdrawForTrade
    case Withdraw(_) => KWithdraw
    case EmergencyWithdraw(_) => KEmergencyWithdraw
    case Pause => KPause
    case Unpause => KUnpause
    case Close => KClose
    case SetMaxLifetime(_) => KSetMaxLifetime
  }

  function Arguments(ins: Instruction): Bytes {
    match ins
    case Initialize(bump, maxBalance) => [bump] + EncodeU64(maxBalance)
    case Deposit(amount) => EncodeU64(amount)
    case DelegatePlatform(key) => key
    case DelegateTrading(key) => key
    case WithdrawSubscriptionFee(amount) => EncodeU64(amount)
    case WithdrawForTrade(amount) => EncodeU64(amount)
    case Withdraw(amount) => EncodeU64(amount)
    case EmergencyWithdraw(amount) => EncodeU64(amount)
    case SetMaxLifetime(seconds) => EncodeI64(seconds)
    case _ => []
  }

  function Wire(ins: Instruction): Bytes {
    Tag(KindOf(ins)) + Arguments(ins)
  }

  /** The first kind, in table order, whose tag the data begins with. */
  function Select(data: Bytes, from: nat): Option<Kind>
    requires from <= |KINDS| && |data| >= 8
    decreases |KINDS| - from
  {
    if from == |KINDS| then None
    else if data[..8] == Tag(KINDS[from]) then Some(KINDS[from])
    else Select(data, from + 1)
  }

  function ReadU64(args: Bytes): Option<u64> {
    if |args| < 8 then None else Some(DecodeU64(args[..8]))
  }

  function ReadI64(args: Bytes): Option<i64> {
    if |args| < 8 then None else Some(DecodeI64(args[..8]))
  }

  function ReadKey(args: Bytes): Option<Pubkey> {
    if |args| < 32 then None else Some(args[..32])
  }

  function Map<T, U>(o: Option<T>, f: T -> U): Option<U> {
    if o.None? then None else Some(f(o.value))
  }

  function ParseArguments(kind: Kind, args: Bytes): Option<Instruction> {
    match kind
    case KInitialize =>
      if args == [] then None else Map(ReadU64(args[1..]), maxBalance => Initialize(args[0], maxBalance))
    case KDeposit => Map(ReadU64(args), amount => Deposit(amount))
    case KDelegatePlatform => Map(ReadKey(args), key => DelegatePlatform(key))
    case KDelegateTrading => Map(ReadKey(args), key => DelegateTrading(key))
    case KRevokePlatform => Some(RevokePlatform)
    case KRevokeTrading => Some(RevokeTrading)
    case KWithdrawFee => Map(ReadU64(args), amount => WithdrawSubscriptionFee(amount))
    case KWithdrawForTrade => Map(ReadU64(args), amount => WithdrawForTrade(amount))
    case KWithdraw => Map(ReadU64(args), amount => Withdraw(amount))
    case KEmergencyWithdraw => Map(ReadU64(args), amount => EmergencyWithdraw(amount))
    case KPause => Some(Pause)
    case KUnpause => Some(Unpause)
    case KClose => Some(Close)
    case KSetMaxLifetime => Map(ReadI64(args), seconds => SetMaxLifetime(seconds))
  }

  /** The program's side: dispatch by tag, then the arguments; trailing bytes are ignored. */
  function Parse(data: Bytes): Option<Instruction> {
    if |data| < 8 then None
    else
      match Select(data, 0)
      case None => None
      case Some(kind) => ParseArguments(kind, data[8..])
  }

  /** No two handlers share a tag: already the first bytes differ. */
  lemma TagsDistinct(j: Kind, k: Kind)
    requires j != k
    ensures Tag(j)[0] != Tag(k)[0]
  {
  }

  lemma {:induction false} SelectFinds(k: Kind, data: Bytes, from: nat)
    requires from <= |KINDS| && |data| >= 8 && data[..8] == Tag(k)
    requires exists i :: from <= i < |KINDS| && KINDS[i] == k
    ensures Select(data, from) == Some(k)
    decreases |KINDS| - from
  {
    hide Tag;
    if KINDS[from] != k {
      TagsDistinct(KINDS[from], k);
      SelectFinds(k, data, from + 1);
    }
  }

  lemma EveryKindListed(k: Kind)
    ensures exists i :: 0 <= i < |KINDS| && KINDS[i] == k
  {
    var i := match k
      case KInitialize => 0 case KDeposit => 1 case KDelegatePlatform => 2 case KDelegateTrading => 3
      case KRevokePlatform => 4 case KRevokeTrading => 5 case KWithdrawFee => 6 case KWithdrawForTrade => 7
      case KWithdraw => 8 case KEmergencyWithdraw => 9 case KPause => 10 case KUnpause => 11 case KClose => 12
      case KSetMaxLifetime => 13;
    assert KINDS[i] == k;
  }

  lemma ReadU64Inverts(v: u64, rest: Bytes)
    ensures ReadU64(EncodeU64(v) + rest) == Some(v)
  {
    RoundTripU64(v);
    assert (EncodeU64(v) + rest)[..8] == EncodeU64(v);
  }

  lemma ReadI64Inverts(v: i64, rest: Bytes)
    ensures ReadI64(EncodeI64(v) + rest) == Some(v)
  {
    RoundTripI64(v);
    assert (EncodeI64(v) + rest)[..8] == EncodeI64(v);
  }

  lemma ReadKeyInverts(k: Pubkey, rest: Bytes)
    ensures ReadKey(k + rest) == Some(k)
  {
    assert (k + rest)[..32] == k;
  }

  lemma ArgumentsInvert(ins: Instruction, rest: Bytes)
    ensures ParseArguments(KindOf(ins), Arguments(ins) + rest) == Some(ins)
  {
    hide EncodeU64, EncodeI64, DecodeU64, DecodeI64, ReadU64, ReadI64, ReadKey;
    match ins
    case Initialize(_, maxBalance) =>
      assert (Arguments(ins) + rest)[1..] == EncodeU64(maxBalance) + rest;
      ReadU64Inverts(maxBalance, rest);
    case Deposit(amount) => ReadU64Inverts(amount, rest);
    case WithdrawSubscriptionFee(amount) => ReadU64Inverts(amount, rest);
    case WithdrawForTrade(amount) => ReadU64Inverts(amount, rest);
    case Withdraw(amount) => ReadU64Inverts(amount, rest);
    case EmergencyWithdraw(amount) => ReadU64Inverts(amount, rest);
    case DelegatePlatform(key) => ReadKeyInverts(key, rest);
    case DelegateTrading(key) => ReadKeyInverts(key, rest);
    case SetMaxLifetime(seconds) => ReadI64Inverts(seconds, rest);
    case _ =>
  }

  /** The program reads back exactly the instruction that was written. */
  lemma ParseInvertsWire(ins: Instruction, rest: Bytes)
    ensures Parse(Wire(ins) + rest) == Some(ins)
  {
    var data := Wire(ins) + rest;
    hide Tag, KindOf, Arguments, ParseArguments, Select;
    EveryKindListed(KindOf(ins));
    assert data[..8] == Tag(KindOf(ins));
    assert data[8..] == Arguments(ins) + rest;
    SelectFinds(KindOf(ins), data, 0);
    ArgumentsInvert(ins, rest);
  }

  /** So no byte string is the data of two instructions. */
  lemma WireUnambiguous(a: Instruction, b: Instruction)
    requires Wire(a) == Wire(b)
    ensures a == b
  {
    ParseInvertsWire(a, []);
    ParseInvertsWire(b, []);
    hide Parse, Wire;
  }

  /** `writeBigUInt64LE`: fills the buffer, or throws and leaves it alone. */
  method WriteBigUInt64LE(buffer: array<u8>, v: int) returns (ok: bool)
    requires buffer.Length == 8
    modifies buffer
    ensures ok <==> 0 <= v <= U64_MAX
    ensures ok ==> buffer[..] == EncodeU64(v)
    ensures !ok ==> buffer[..] == old(buffer[..])
  {
    if v < 0 || v > U64_MAX { return false; }
    var rest: nat := v;
    for i := 0 to 8
      invariant buffer[..i] + LittleEndian(rest, 8 - i) == LittleEndian(v, 8)
    {
      ghost var before := buffer[..i];
      assert LittleEndian(rest, 8 - i) == [rest % 256] + LittleEndian(rest / 256, 7 - i);
      buffer[i] := rest % 256;
      rest := rest / 256;
      assert buffer[..i + 1] == before + [buffer[i]];
    }
    assert buffer[..8] == buffer[..];
    ok := true;
  }

  /** The bridge's deposit data; None is the RangeError of an amount that is not a u64. */
  method BuildDeposit(amount: int) returns (data: Option<Bytes>)
    ensures data == if 0 <= amount <= U64_MAX then Some(Wire(Deposit(amount))) else None
  {
    var amountBuffer := new u8[8](_ => 0);
    var ok := WriteBigUInt64LE(amountBuffer, amount);
    if !ok { return None; }
    data := Some(Tag(KDeposit) + amountBuffer[..]);
  }

  method BuildInitializeEscrow(bump: int, maxBalance: int) returns (data: Option<Bytes>)
    ensures data == if 0 <= bump < 256 && 0 <= maxBalance <= U64_MAX
                    then Some(Wire(Initialize(bump, maxBalance))) else None
  {
    if bump < 0 || bump > 255 { return None; }
    var bumpBuffer := new u8[1](_ => bump);
    var maxBalanceBuffer := new u8[8](_ => 0);
    var ok := WriteBigUInt64LE(maxBalanceBuffer, maxBalance);
    if !ok { return None; }
    assert bumpBuffer[..] == [bump];
    data := Some(Tag(KInitialize) + bumpBuffer[..] + maxBalanceBuffer[..]);
    assert Tag(KInitialize) + bumpBuffer[..] + maxBalanceBuffer[..] == Wire(Initialize(bump, maxBalance));
  }

  /** The data of each instruction, byte by byte: the tag of its handler, the arguments in
      order, and nothing else. */
  lemma WireLayout(ins: Instruction)
    ensures var data := Wire(ins);
            && |data| >= 8
            && match ins
               case Initialize(bump, maxBalance) =>
                 data[..8] == Tag(KInitialize) && |data| == 17 && data[8] == bump && AddsUp(data[9..], maxBalance)
               case Deposit(amount) => data[..8] == Tag(KDeposit) && AddsUp(data[8..], amount)
               case DelegatePlatform(key) => data[..8] == Tag(KDelegatePlatform) && data[8..] == key
               case DelegateTrading(key) => data[..8] == Tag(KDelegateTrading) && data[8..] == key
               case RevokePlatform => data == Tag(KRevokePlatform)
               case RevokeTrading => data == Tag(KRevokeTrading)
               case WithdrawSubscriptionFee(amount) => data[..8] == Tag(KWithdrawFee) && AddsUp(data[8..], amount)
               case WithdrawForTrade(amount) => data[..8] == Tag(KWithdrawForTrade) && AddsUp(data[8..], amount)
               case Withdraw(amount) => data[..8] == Tag(KWithdraw) && AddsUp(data[8..], amount)
               case EmergencyWithdraw(amount) => data[..8] == Tag(KEmergencyWithdraw) && AddsUp(data[8..], amount)
               case Pause => data == Tag(KPause)
               case Unpause => data == Tag(KUnpause)
               case Close => data == Tag(KClose)
               case SetMaxLifetime(seconds) =>
                 data[..8] == Tag(KSetMaxLifetime) && AddsUp(data[8..], Stored(seconds))
  {
    hide EncodeU64, EncodeI64, AddsUp, Tag;
    var data := Wire(ins);
    assert data[..8] == Tag(KindOf(ins)) && data[8..] == Arguments(ins);
    match ins
    case Initialize(bump, maxBalance) =>
      NumbersAddUp(maxBalance, 0);
      assert data[9..] == data[8..][1..] == EncodeU64(maxBalance);
    case Deposit(amount) => NumbersAddUp(amount, 0);
    case WithdrawSubscriptionFee(amount) => NumbersAddUp(amount, 0);
    case WithdrawForTrade(amount) => NumbersAddUp(amount, 0);
    case Withdraw(amount) => NumbersAddUp(amount, 0);
    case EmergencyWithdraw(amount) => NumbersAddUp(amount, 0);
    case SetMaxLifetime(seconds) => NumbersAddUp(0, seconds);
    case _ =>
  }
}
