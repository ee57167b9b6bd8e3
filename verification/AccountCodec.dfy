/** The bytes of the escrow account: Borsh serialisation as the program stores it, and
    the bridge's reader that walks the same bytes by offset. */
module AccountCodec {
  import opened Machine
  import opened EscrowState

  type Bytes = seq<u8>

  /** The n low bytes of v, least significant first. */
  function LittleEndian(v: nat, n: nat): (s: Bytes)
    ensures |s| == n
  {
    if n == 0 then [] else [v % 256] + LittleEndian(v / 256, n - 1)
  }

  /** `readBigUInt64LE` and its shorter kin. */
  function FromLittleEndian(s: Bytes): nat {
    if s == [] then 0 else s[0] + 256 * FromLittleEndian(s[1..])
  }

  lemma Digit(low: u8, high: nat)
    ensures (low + 256 * high) % 256 == low && (low + 256 * high) / 256 == high
  {
  }

  function Pow256(n: nat): nat {
    if n == 0 then 1 else 256 * Pow256(n - 1)
  }

  lemma {:induction false} DecodeEncode(v: nat, n: nat)
    requires v < Pow256(n)
    ensures FromLittleEndian(LittleEndian(v, n)) == v
  {
    if n > 0 {
      assert LittleEndian(v, n)[1..] == LittleEndian(v / 256, n - 1);
      DecodeEncode(v / 256, n - 1);
    }
  }

  lemma {:induction false} EncodeDecode(s: Bytes)
    ensures FromLittleEndian(s) < Pow256(|s|)
    ensures LittleEndian(FromLittleEndian(s), |s|) == s
  {
    if s != [] {
      EncodeDecode(s[1..]);
      Digit(s[0], FromLittleEndian(s[1..]));
      assert s == [s[0]] + s[1..];
    }
  }

  const TWO_64 := 0x1_0000_0000_0000_0000

  lemma Pow256Eight()
    ensures Pow256(8) == TWO_64
  {
  }

  function EncodeU64(v: u64): (s: Bytes)
    ensures |s| == 8
  {
    LittleEndian(v, 8)
  }

  /** Two's complement. */
  function EncodeI64(v: i64): (s: Bytes)
    ensures |s| == 8
  {
    LittleEndian(if v < 0 then v + TWO_64 else v, 8)
  }

  function DecodeU64(s: Bytes): u64
    requires |s| == 8
  {
    EncodeDecode(s);
    Pow256Eight();
    FromLittleEndian(s)
  }

  function DecodeI64(s: Bytes): i64
    requires |s| == 8
  {
    var v := DecodeU64(s);
    if v > I64_MAX then v - TWO_64 else v
  }

  lemma RoundTripU64(v: u64)
    ensures DecodeU64(EncodeU64(v)) == v
  {
    Pow256Eight();
    DecodeEncode(v, 8);
  }

  lemma RoundTripI64(v: i64)
    ensures DecodeI64(EncodeI64(v)) == v
  {
    Pow256Eight();
    DecodeEncode(if v < 0 then v + TWO_64 else v, 8);
  }

  lemma BytesOfU64(s: Bytes)
    requires |s| == 8
    ensures EncodeU64(DecodeU64(s)) == s
  {
    EncodeDecode(s);
  }

  lemma BytesOfI64(s: Bytes)
    requires |s| == 8
    ensures EncodeI64(DecodeI64(s)) == s
  {
    EncodeDecode(s);
  }

  /** The n low binary digits of x, and back. */
  function Digits(x: nat, n: nat): (s: seq<bool>)
    ensures |s| == n
  {
    if n == 0 then [] else [x % 2 == 1] + Digits(x / 2, n - 1)
  }

  function FromDigits(s: seq<bool>): nat {
    if s == [] then 0 else (if s[0] then 1 else 0) + 2 * FromDigits(s[1..])
  }

  function Pow2(n: nat): nat {
    if n == 0 then 1 else 2 * Pow2(n - 1)
  }

  lemma {:induction false} DigitsThere(x: nat, n: nat)
    requires x < Pow2(n)
    ensures FromDigits(Digits(x, n)) == x
  {
    if n > 0 {
      assert Digits(x, n)[1..] == Digits(x / 2, n - 1);
      DigitsThere(x / 2, n - 1);
    }
  }

  lemma {:induction false} DigitsBack(s: seq<bool>)
    ensures FromDigits(s) < Pow2(|s|)
    ensures Digits(FromDigits(s), |s|) == s
  {
    if s != [] {
      DigitsBack(s[1..]);
      assert FromDigits(s) / 2 == FromDigits(s[1..]);
      assert s == [s[0]] + s[1..];
    }
  }

  function Flags(w: bv8): (s: seq<bool>)
    ensures |s| == 8
  {
    [w & 1 != 0, w & 2 != 0, w & 4 != 0, w & 8 != 0, w & 16 != 0, w & 32 != 0, w & 64 != 0, w & 128 != 0]
  }

  function Mask(on: bool, bit: bv8): bv8 {
    if on then bit else 0
  }

  function Word(s: seq<bool>): bv8
    requires |s| == 8
  {
    Mask(s[0], 1) | Mask(s[1], 2) | Mask(s[2], 4) | Mask(s[3], 8)
    | Mask(s[4], 16) | Mask(s[5], 32) | Mask(s[6], 64) | Mask(s[7], 128)
  }

  /** The number a flag word is stored as, and the flag word of a byte. */
  function ByteOf(flags: bv8): u8 {
    DigitsBack(Flags(flags));
    assert Pow2(4) == 16;
    FromDigits(Flags(flags))
  }

  function BitsOf(x: u8): bv8 {
    Word(Digits(x, 8))
  }

  lemma WordOfFlags(w: bv8)
    ensures Word(Flags(w)) == w
  {
  }

  lemma FlagsOfWord(s: seq<bool>)
    requires |s| == 8
    ensures Flags(Word(s)) == s
  {
  }

  lemma BitsOfByte(flags: bv8)
    ensures BitsOf(ByteOf(flags)) == flags
  {
    hide Word;
    DigitsBack(Flags(flags));
    WordOfFlags(flags);
  }

  lemma ByteOfBits(x: u8)
    ensures ByteOf(BitsOf(x)) == x
  {
    hide Word, Flags;
    FlagsOfWord(Digits(x, 8));
    assert Pow2(4) == 16;
    DigitsThere(x, 8);
  }

  const TAG_LEN := 8

  /** The fixed-length part ends where the reserved bytes begin. */
  const RESERVED_AT := 226

  /** `EscrowAccount::INIT_SPACE`, the account without its tag. */
  const INIT_SPACE := 394

  /** The stored account: Anchor's tag, then by the rules of Borsh the fields of the struct
      in order, integers little-endian and arrays as they are. */
  function Parts(tag: Bytes, a: Account): seq<Bytes> {
    [tag, a.user, a.platformAuthority, a.tradingAuthority, a.tokenMint, [a.bump], [ByteOf(a.flags)],
     EncodeI64(a.createdAt), EncodeI64(a.platformActivatedAt), EncodeI64(a.tradingActivatedAt),
     EncodeI64(a.lastPausedAt), EncodeU64(a.actionNonce), EncodeU64(a.totalDeposited),
     EncodeU64(a.totalWithdrawn), EncodeU64(a.totalFeesPaid), EncodeU64(a.totalTraded),
     EncodeU64(a.maxBalance), EncodeI64(a.maxLifetime), a.reserved]
  }

  function Offset(parts: seq<Bytes>, k: nat): nat
    requires k <= |parts|
  {
    if k == 0 then 0 else Offset(parts, k - 1) + |parts[k - 1]|
  }

  function Concat(parts: seq<Bytes>, k: nat): (s: Bytes)
    requires k <= |parts|
    ensures |s| == Offset(parts, k)
  {
    if k == 0 then [] else Concat(parts, k - 1) + parts[k - 1]
  }

  function Encode(tag: Bytes, a: Account): Bytes {
    Concat(Parts(tag, a), 19)
  }

  lemma {:induction false} PartAt(parts: seq<Bytes>, n: nat, k: nat)
    requires k < n <= |parts|
    ensures Offset(parts, k) <= Offset(parts, k + 1) <= Offset(parts, n)
    ensures Concat(parts, n)[Offset(parts, k)..Offset(parts, k + 1)] == parts[k]
  {
    if k < n - 1 {
      PartAt(parts, n - 1, k);
    }
  }

  /** Part k is the slice of the buffer that the lengths before it assign to it. */
  predicate SliceOf(parts: seq<Bytes>, k: nat, data: Bytes)
    requires k < |parts|
  {
    var lo, hi := Offset(parts, k), Offset(parts, k) + |parts[k]|;
    hi <= |data| && parts[k] == data[lo..hi]
  }

  /** Consecutive slices of a buffer concatenate to the buffer. */
  lemma {:induction false} Rebuild(parts: seq<Bytes>, n: nat, data: Bytes)
    requires n <= |parts| && Offset(parts, n) <= |data|
    requires forall k :: 0 <= k < n ==> SliceOf(parts, k, data)
    ensures Concat(parts, n) == data[..Offset(parts, n)]
  {
    if n > 0 {
      Rebuild(parts, n - 1, data);
      var lo, hi := Offset(parts, n - 1), Offset(parts, n);
      assert SliceOf(parts, n - 1, data);
      assert data[..lo] + data[lo..hi] == data[..hi];
    }
  }

  /** Where each of the 19 parts begins, and where the last one ends. */
  function Position(k: nat): nat
    requires k <= 19
  {
    if k == 0 then 0
    else if k <= 5 then 8 + 32 * (k - 1)
    else if k <= 6 then 137
    else if k <= 18 then 138 + 8 * (k - 7)
    else TAG_LEN + INIT_SPACE
  }

  predicate WellSized(parts: seq<Bytes>) {
    && |parts| == 19
    && forall k :: 0 <= k < 19 ==> |parts[k]| == Position(k + 1) - Position(k)
  }

  lemma {:induction false} Layout(parts: seq<Bytes>, k: nat)
    requires WellSized(parts) && k <= 19
    ensures Offset(parts, k) == Position(k)
  {
    if k > 0 {
      Layout(parts, k - 1);
    }
  }

  /** JavaScript's `slice`: the bounds are clipped to the buffer. */
  function Slice(data: Bytes, lo: nat, hi: nat): (s: Bytes)
    requires lo <= hi
    ensures hi <= |data| ==> s == data[lo..hi]
    ensures |s| <= hi - lo
  {
    if lo >= |data| then [] else if hi >= |data| then data[lo..] else data[lo..hi]
  }

  /** The object the bridge builds from an account's bytes. */
  datatype Record = Record(
    tag: Bytes,
    user: Pubkey,
    platformAuthority: Pubkey,
    tradingAuthority: Pubkey,
    tokenMint: Pubkey,
    bump: u8,
    flags: u8,
    createdAt: i64,
    platformActivatedAt: i64,
    tradingActivatedAt: i64,
    lastPausedAt: i64,
    actionNonce: u64,
    totalDeposited: u64,
    totalWithdrawn: u64,
    totalFeesPaid: u64,
    totalTraded: u64,
    maxBalance: u64,
    maxLifetime: i64,
    reserved: Bytes)

  datatype Fetch = NotFound | OutOfRange | Fetched(record: Record)

  function RecordOf(tag: Bytes, a: Account): Record {
    Record(tag, a.user, a.platformAuthority, a.tradingAuthority, a.tokenMint, a.bump, ByteOf(a.flags),
           a.createdAt, a.platformActivatedAt, a.tradingActivatedAt, a.lastPausedAt, a.actionNonce,
           a.totalDeposited, a.totalWithdrawn, a.totalFeesPaid, a.totalTraded, a.maxBalance,
           a.maxLifetime, a.reserved)
  }

  /** The record that a buffer holds, by fixed positions. */
  function RecordAt(data: Bytes): Record
    requires |data| >= RESERVED_AT
  {
    Record(data[..8],
           data[8..40],
           data[40..72],
           data[72..104],
           data[104..136],
           data[136],
           data[137],
           DecodeI64(data[138..146]),
           DecodeI64(data[146..154]),
           DecodeI64(data[154..162]),
           DecodeI64(data[162..170]),
           DecodeU64(data[170..178]),
           DecodeU64(data[178..186]),
           DecodeU64(data[186..194]),
           DecodeU64(data[194..202]),
           DecodeU64(data[202..210]),
           DecodeU64(data[210..218]),
           DecodeI64(data[218..226]),
           Slice(data, 226, 402))
  }

  method ReadI64(data: Bytes, offset: nat) returns (v: Option<i64>)
    ensures v.Some? <==> offset + 8 <= |data|
    ensures v.Some? ==> v.value == DecodeI64(data[offset..offset + 8])
  {
    if offset + 8 > |data| { return None; }
    v := Some(DecodeI64(data[offset..offset + 8]));
  }

  method ReadU64(data: Bytes, offset: nat) returns (v: Option<u64>)
    ensures v.Some? <==> offset + 8 <= |data|
    ensures v.Some? ==> v.value == DecodeU64(data[offset..offset + 8])
  {
    if offset + 8 > |data| { return None; }
    v := Some(DecodeU64(data[offset..offset + 8]));
  }

  /** The bridge's reader: an offset advances over the buffer field by field. Slices clip
      silently, integer reads beyond the end throw. */
  method FetchEscrowAccount(accountInfo: Option<Bytes>) returns (r: Fetch)
    ensures accountInfo.None? ==> r == NotFound
    ensures accountInfo.Some? && |accountInfo.value| < RESERVED_AT ==> r == OutOfRange
    ensures accountInfo.Some? && |accountInfo.value| >= RESERVED_AT ==> r == Fetched(RecordAt(accountInfo.value))
  {
    hide DecodeI64, DecodeU64;
    if accountInfo.None? { return NotFound; }
    var data := accountInfo.value;
    var offset := TAG_LEN;
    var user := Slice(data, offset, offset + 32);
    offset := offset + 32;
    var platformAuthority := Slice(data, offset, offset + 32);
    offset := offset + 32;
    var tradingAuthority := Slice(data, offset, offset + 32);
    offset := offset + 32;
    var tokenMint := Slice(data, offset, offset + 32);
    offset := offset + 32;
    var bump: u8 := if offset < |data| then data[offset] else 0;
    offset := offset + 1;
    var flags: u8 := if offset < |data| then data[offset] else 0;
    offset := offset + 1;
    var createdAt := ReadI64(data, offset);
    if createdAt.None? { return OutOfRange; }
    offset := offset + 8;
    var platformActivatedAt := ReadI64(data, offset);
    if platformActivatedAt.None? { return OutOfRange; }
    offset := offset + 8;
    var tradingActivatedAt := ReadI64(data, offset);
    if tradingActivatedAt.None? { return OutOfRange; }
    offset := offset + 8;
    var lastPausedAt := ReadI64(data, offset);
    if lastPausedAt.None? { return OutOfRange; }
    offset := offset + 8;
    var actionNonce := ReadU64(data, offset);
    if actionNonce.None? { return OutOfRange; }
    offset := offset + 8;
    var totalDeposited := ReadU64(data, offset);
    if totalDeposited.None? { return OutOfRange; }
    offset := offset + 8;
    var totalWithdrawn := ReadU64(data, offset);
    if totalWithdrawn.None? { return OutOfRange; }
    offset := offset + 8;
    var totalFeesPaid := ReadU64(data, offset);
    if totalFeesPaid.None? { return OutOfRange; }
    offset := offset + 8;
    var totalTraded := ReadU64(data, offset);
    if totalTraded.None? { return OutOfRange; }
    offset := offset + 8;
    var maxBalance := ReadU64(data, offset);
    if maxBalance.None? { return OutOfRange; }
    offset := offset + 8;
    var maxLifetime := ReadI64(data, offset);
    if maxLifetime.None? { return OutOfRange; }
    offset := offset + 8;
    var reserved := Slice(data, offset, offset + 176);
    r := Fetched(Record(data[..8], user, platformAuthority, tradingAuthority, tokenMint, bump, flags,
                        createdAt.value, platformActivatedAt.value, tradingActivatedAt.value,
                        lastPausedAt.value, actionNonce.value, totalDeposited.value, totalWithdrawn.value,
                        totalFeesPaid.value, totalTraded.value, maxBalance.value, maxLifetime.value, reserved));
  }

  /** The part of a buffer at the fixed position of field k. */
  function Cut(data: Bytes, k: nat): Bytes
    requires k < 19 && |data| >= TAG_LEN + INIT_SPACE
  {
    data[Position(k)..Position(k + 1)]
  }

  lemma PartsWellSized(tag: Bytes, a: Account)
    requires |tag| == TAG_LEN
    ensures WellSized(Parts(tag, a))
  {
  }

  /** Cutting a buffer that begins with a stored account gives its parts. */
  lemma CutInvertsEncode(tag: Bytes, a: Account, rest: Bytes, k: nat)
    requires |tag| == TAG_LEN && k < 19
    ensures |Encode(tag, a)| == TAG_LEN + INIT_SPACE
    ensures Cut(Encode(tag, a) + rest, k) == Parts(tag, a)[k]
  {
    var parts := Parts(tag, a);
    hide Parts;
    PartsWellSized(tag, a);
    Layout(parts, 19);
    Layout(parts, k);
    Layout(parts, k + 1);
    PartAt(parts, 19, k);
    assert Cut(Encode(tag, a) + rest, k) == Concat(parts, 19)[Offset(parts, k)..Offset(parts, k + 1)];
  }

  lemma CutsAre(data: Bytes)
    requires |data| >= TAG_LEN + INIT_SPACE
    ensures Cut(data, 0) == data[..8] && Cut(data, 1) == data[8..40] && Cut(data, 2) == data[40..72]
    ensures Cut(data, 3) == data[72..104] && Cut(data, 4) == data[104..136] && Cut(data, 5) == data[136..137]
    ensures Cut(data, 6) == data[137..138] && Cut(data, 7) == data[138..146] && Cut(data, 8) == data[146..154]
    ensures Cut(data, 9) == data[154..162] && Cut(data, 10) == data[162..170] && Cut(data, 11) == data[170..178]
    ensures Cut(data, 12) == data[178..186] && Cut(data, 13) == data[186..194] && Cut(data, 14) == data[194..202]
    ensures Cut(data, 15) == data[202..210] && Cut(data, 16) == data[210..218] && Cut(data, 17) == data[218..226]
    ensures Cut(data, 18) == data[226..402]
  {
  }

  /** Reading inverts storing: whatever follows in the buffer, the bridge gets back the
      tag and every field of the account. */
  lemma FetchInvertsEncode(tag: Bytes, a: Account, rest: Bytes)
    requires |tag| == TAG_LEN
    ensures |Encode(tag, a)| == TAG_LEN + INIT_SPACE
    ensures RecordAt(Encode(tag, a) + rest) == RecordOf(tag, a)
  {
    hide Encode, LittleEndian, EncodeI64, EncodeU64, DecodeI64, DecodeU64;
    var data := Encode(tag, a) + rest;
    forall k: nat | k < 19
      ensures |Encode(tag, a)| == TAG_LEN + INIT_SPACE && Cut(data, k) == Parts(tag, a)[k]
    {
      CutInvertsEncode(tag, a, rest, k);
    }
    assert |data| >= TAG_LEN + INIT_SPACE by { CutInvertsEncode(tag, a, rest, 0); }
    CutsAre(data);
    hide Cut, Position, BitsOf, ByteOf;
    RoundTripI64(a.createdAt);
    RoundTripI64(a.platformActivatedAt);
    RoundTripI64(a.tradingActivatedAt);
    RoundTripI64(a.lastPausedAt);
    RoundTripU64(a.actionNonce);
    RoundTripU64(a.totalDeposited);
    RoundTripU64(a.totalWithdrawn);
    RoundTripU64(a.totalFeesPaid);
    RoundTripU64(a.totalTraded);
    RoundTripU64(a.maxBalance);
    RoundTripI64(a.maxLifetime);
    assert Cut(data, 5)[0] == data[136] && Cut(data, 6)[0] == data[137];
  }

  function AccountOf(r: Record): Account
    requires |r.reserved| == 176
  {
    Account(r.user, r.platformAuthority, r.tradingAuthority, r.tokenMint, r.bump, BitsOf(r.flags),
            r.createdAt, r.platformActivatedAt, r.tradingActivatedAt, r.lastPausedAt, r.actionNonce,
            r.totalDeposited, r.totalWithdrawn, r.totalFeesPaid, r.totalTraded, r.maxBalance,
            r.maxLifetime, r.reserved)
  }

  /** The parts of what was read are the pieces of the buffer. */
  lemma PartsOfRecord(data: Bytes)
    requires |data| == TAG_LEN + INIT_SPACE
    ensures var r := RecordAt(data);
            forall k: nat :: k < 19 ==> Parts(r.tag, AccountOf(r))[k] == Cut(data, k)
  {
    hide LittleEndian, EncodeI64, EncodeU64, DecodeI64, DecodeU64, BitsOf, ByteOf;
    ByteOfBits(data[137]);
    BytesOfI64(data[138..146]);
    BytesOfI64(data[146..154]);
    BytesOfI64(data[154..162]);
    BytesOfI64(data[162..170]);
    BytesOfU64(data[170..178]);
    BytesOfU64(data[178..186]);
    BytesOfU64(data[186..194]);
    BytesOfU64(data[194..202]);
    BytesOfU64(data[202..210]);
    BytesOfU64(data[210..218]);
    BytesOfI64(data[218..226]);
  }

  /** Storing inverts reading: every buffer of the account's size is the stored form of
      what the bridge reads from it, so the reader uses every byte. */
  lemma EncodeInvertsFetch(data: Bytes)
    requires |data| == TAG_LEN + INIT_SPACE
    ensures var r := RecordAt(data); Encode(r.tag, AccountOf(r)) == data
  {
    var r := RecordAt(data);
    var parts := Parts(r.tag, AccountOf(r));
    hide Parts, AccountOf;
    PartsOfRecord(data);
    PartsWellSized(r.tag, AccountOf(r));
    hide RecordAt;
    forall k | 0 <= k < 19
      ensures SliceOf(parts, k, data)
    {
      Layout(parts, k);
      Layout(parts, k + 1);
      assert parts[k] == Cut(data, k);
    }
    Layout(parts, 19);
    Rebuild(parts, 19, data);
  }

  /** Nothing beyond the account's size is looked at. */
  lemma FetchReadsExactly(data: Bytes)
    requires |data| >= TAG_LEN + INIT_SPACE
    ensures RecordAt(data) == RecordAt(data[..TAG_LEN + INIT_SPACE])
  {
    var r := RecordAt(data[..TAG_LEN + INIT_SPACE]);
    EncodeInvertsFetch(data[..TAG_LEN + INIT_SPACE]);
    FetchInvertsEncode(r.tag, AccountOf(r), data[TAG_LEN + INIT_SPACE..]);
    assert data == data[..TAG_LEN + INIT_SPACE] + data[TAG_LEN + INIT_SPACE..];
    hide RecordAt, Encode, BitsOf, ByteOf;
    ByteOfBits(r.flags);
  }

  /** The bridge's test of one flag in the byte it read. */
  predicate BridgeTest(flags: u8, mask: bv8) {
    BitsOf(flags) & mask != 0
  }

  lemma FlagsReadBack(tag: Bytes, a: Account, rest: Bytes)
    requires |tag| == TAG_LEN
    ensures |Encode(tag, a)| == TAG_LEN + INIT_SPACE
    ensures BitsOf(RecordAt(Encode(tag, a) + rest).flags) == a.flags
  {
    FetchInvertsEncode(tag, a, rest);
    BitsOfByte(a.flags);
    hide RecordAt, Encode, BitsOf, ByteOf;
  }

  /** The three flags the bridge reports are those the program's getters see. */
  lemma FlagTestsAgree(tag: Bytes, a: Account, rest: Bytes)
    requires |tag| == TAG_LEN
    ensures |Encode(tag, a)| == TAG_LEN + INIT_SPACE
    ensures var flags := RecordAt(Encode(tag, a) + rest).flags;
            && (BridgeTest(flags, 1) <==> IsActive(a, Platform))
            && (BridgeTest(flags, 2) <==> IsActive(a, Trading))
            && (BridgeTest(flags, 4) <==> IsPaused(a))
  {
    hide RecordAt, Encode, BitsOf;
    FlagsReadBack(tag, a, rest);
  }

  /** Eight bytes, least significant first, that add up to v. */
  predicate AddsUp(s: Bytes, v: int) {
    && |s| == 8
    && v == s[0] + 0x100 * (s[1] as int) + 0x1_0000 * (s[2] as int) + 0x100_0000 * (s[3] as int)
            + 0x1_0000_0000 * (s[4] as int) + 0x100_0000_0000 * (s[5] as int)
            + 0x1_0000_0000_0000 * (s[6] as int) + 0x100_0000_0000_0000 * (s[7] as int)
  }

  /** Negative numbers are stored as what is missing to 2^64. */
  function Stored(v: i64): int {
    if v < 0 then v + 0x1_0000_0000_0000_0000 else v
  }

  lemma Unrolled(s: Bytes)
    requires |s| == 8
    ensures AddsUp(s, FromLittleEndian(s))
  {
    hide FromLittleEndian;
    ByteFirst(s, 0);
    ByteFirst(s, 1);
    ByteFirst(s, 2);
    ByteFirst(s, 3);
    ByteFirst(s, 4);
    ByteFirst(s, 5);
    ByteFirst(s, 6);
    ByteFirst(s, 7);
    assert s[0..] == s;
  }

  lemma ByteFirst(s: Bytes, k: nat)
    requires k < |s|
    ensures FromLittleEndian(s[k..]) == s[k] + 256 * FromLittleEndian(s[k + 1..])
    ensures k + 1 == |s| ==> FromLittleEndian(s[k + 1..]) == 0
  {
    assert s[k..][1..] == s[k + 1..];
  }

  lemma NumbersAddUp(u: u64, i: i64)
    ensures AddsUp(EncodeU64(u), u) && AddsUp(EncodeI64(i), Stored(i))
  {
    Pow256Eight();
    DecodeEncode(u, 8);
    Unrolled(EncodeU64(u));
    DecodeEncode(Stored(i), 8);
    Unrolled(EncodeI64(i));
    hide LittleEndian, FromLittleEndian, AddsUp;
  }

  function Bit(on: bool): nat {
    if on then 1 else 0
  }

  lemma DigitsAddUp(s: seq<bool>)
    requires |s| == 8
    ensures FromDigits(s) == Bit(s[0]) + 2 * Bit(s[1]) + 4 * Bit(s[2]) + 8 * Bit(s[3])
                             + 16 * Bit(s[4]) + 32 * Bit(s[5]) + 64 * Bit(s[6]) + 128 * Bit(s[7])
  {
    hide FromDigits, Bit;
    DigitFirst(s, 0);
    DigitFirst(s, 1);
    DigitFirst(s, 2);
    DigitFirst(s, 3);
    DigitFirst(s, 4);
    DigitFirst(s, 5);
    DigitFirst(s, 6);
    DigitFirst(s, 7);
    assert s[0..] == s;
  }

  lemma DigitFirst(s: seq<bool>, k: nat)
    requires k < |s|
    ensures FromDigits(s[k..]) == Bit(s[k]) + 2 * FromDigits(s[k + 1..])
    ensures k + 1 == |s| ==> FromDigits(s[k + 1..]) == 0
  {
    assert s[k..][1..] == s[k + 1..];
  }

  lemma LowFlags(a: Account)
    requires a.flags & FLAGS_RESERVED == 0
    ensures var s := Flags(a.flags);
            && s[0] == IsActive(a, Platform) && s[1] == IsActive(a, Trading) && s[2] == IsPaused(a)
            && !s[3] && !s[4] && !s[5] && !s[6] && !s[7]
  {
  }

  /** The stored byte of a sound flag word: one for the platform, two for trading, four for
      the pause. */
  lemma FlagByte(a: Account)
    requires a.flags & FLAGS_RESERVED == 0
    ensures ByteOf(a.flags) == Bit(IsActive(a, Platform)) + 2 * Bit(IsActive(a, Trading)) + 4 * Bit(IsPaused(a))
  {
    LowFlags(a);
    hide HasFlag, Flags, FromDigits;
    DigitsAddUp(Flags(a.flags));
  }

  /** Where each field of an account lies in its stored form, byte by byte. */
  lemma StoredAt(tag: Bytes, a: Account)
    requires |tag| == 8
    ensures var data := Encode(tag, a);
            && |data| == 402
            && data[..8] == tag && data[8..40] == a.user && data[40..72] == a.platformAuthority
            && data[72..104] == a.tradingAuthority && data[104..136] == a.tokenMint && data[136] == a.bump
            && AddsUp(data[138..146], Stored(a.createdAt)) && AddsUp(data[146..154], Stored(a.platformActivatedAt))
            && AddsUp(data[154..162], Stored(a.tradingActivatedAt)) && AddsUp(data[162..170], Stored(a.lastPausedAt))
            && AddsUp(data[170..178], a.actionNonce) && AddsUp(data[178..186], a.totalDeposited)
            && AddsUp(data[186..194], a.totalWithdrawn) && AddsUp(data[194..202], a.totalFeesPaid)
            && AddsUp(data[202..210], a.totalTraded) && AddsUp(data[210..218], a.maxBalance)
            && AddsUp(data[218..226], Stored(a.maxLifetime)) && data[226..] == a.reserved
    ensures a.flags & FLAGS_RESERVED == 0 ==>
              Encode(tag, a)[137] == Bit(IsActive(a, Platform)) + 2 * Bit(IsActive(a, Trading))
                                     + 4 * Bit(IsPaused(a))
  {
    hide Encode, EncodeU64, EncodeI64, AddsUp, ByteOf;
    var data := Encode(tag, a);
    assert data + [] == data;
    forall k: nat | k < 19
      ensures |data| == TAG_LEN + INIT_SPACE && Cut(data, k) == Parts(tag, a)[k]
    {
      CutInvertsEncode(tag, a, [], k);
    }
    assert |data| == 402 by { CutInvertsEncode(tag, a, [], 0); }
    CutsAre(data);
    hide Cut, Position;
    assert Cut(data, 5)[0] == data[136] && Cut(data, 6)[0] == data[137];
    NumbersAddUp(a.actionNonce, a.createdAt);
    NumbersAddUp(a.totalDeposited, a.platformActivatedAt);
    NumbersAddUp(a.totalWithdrawn, a.tradingActivatedAt);
    NumbersAddUp(a.totalFeesPaid, a.lastPausedAt);
    NumbersAddUp(a.totalTraded, a.maxLifetime);
    NumbersAddUp(a.maxBalance, a.maxLifetime);
    if a.flags & FLAGS_RESERVED == 0 { FlagByte(a); }
  }
}
