/** The instructions of the lending program and their byte encoding. */
module LendingCodec {
  import opened Numbers
  import opened Records

  /** What a decoder reads off the front of its input and what it leaves, or its only failure. */
  datatype Unpacked<+T> = Read(value: T, rest: seq<u8>) | InstructionUnpackError {
    predicate IsFailure() {
      InstructionUnpackError?
    }

    function PropagateFailure<U>(): Unpacked<U>
      requires InstructionUnpackError?
    {
      InstructionUnpackError
    }

    function Extract(): (T, seq<u8>)
      requires Read?
    {
      (value, rest)
    }
  }

  datatype ReserveFees = ReserveFees(borrowFeeWad: u64, flashLoanFeeWad: u64, hostFeePercentage: u8)

  datatype ReserveConfig = ReserveConfig(
    optimalUtilizationRate: u8,
    loanToValueRatio: u8,
    liquidationBonus: u8,
    liquidationThreshold: u8,
    minBorrowRate: u8,
    optimalBorrowRate: u8,
    maxBorrowRate: u8,
    fees: ReserveFees
  )

  datatype LendingInstruction =
    | InitLendingMarket(owner: Pubkey, quoteCurrency: Pubkey)
    | SetLendingMarketOwner(newOwner: Pubkey)
    | InitReserve(liquidityAmount: u64, config: ReserveConfig)
    | RefreshReserve
    | DepositReserveLiquidity(liquidityAmount: u64)
    | RedeemReserveCollateral(collateralAmount: u64)
    | InitObligation
    | RefreshObligation
    | DepositObligationCollateral(collateralAmount: u64)
    | WithdrawObligationCollateral(collateralAmount: u64)
    | BorrowObligationLiquidity(liquidityAmount: u64)
    | RepayObligationLiquidity(liquidityAmount: u64)
    | LiquidateObligation(liquidityAmount: u64)
    | FlashLoan(amount: u64)

  // ----- Decoding -----

  function UnpackU64(input: seq<u8>): Unpacked<u64> {
    if |input| < 8 then InstructionUnpackError else Read(U64Of(input[..8]), input[8..])
  }

  function UnpackU8(input: seq<u8>): Unpacked<u8> {
    if |input| == 0 then InstructionUnpackError else Read(input[0], input[1..])
  }

  function UnpackBytes32(input: seq<u8>): Unpacked<Pubkey> {
    if |input| < 32 then InstructionUnpackError else Read(input[..32], input[32..])
  }

  function UnpackFees(input: seq<u8>): Unpacked<ReserveFees> {
    var (borrowFeeWad, rest) :- UnpackU64(input);
    var (flashLoanFeeWad, rest) :- UnpackU64(rest);
    var (hostFeePercentage, rest) :- UnpackU8(rest);
    Read(ReserveFees(borrowFeeWad, flashLoanFeeWad, hostFeePercentage), rest)
  }

  function UnpackConfig(input: seq<u8>): Unpacked<ReserveConfig> {
    var (optimalUtilizationRate, rest) :- UnpackU8(input);
    var (loanToValueRatio, rest) :- UnpackU8(rest);
    var (liquidationBonus, rest) :- UnpackU8(rest);
    var (liquidationThreshold, rest) :- UnpackU8(rest);
    var (minBorrowRate, rest) :- UnpackU8(rest);
    var (optimalBorrowRate, rest) :- UnpackU8(rest);
    var (maxBorrowRate, rest) :- UnpackU8(rest);
    var (fees, rest) :- UnpackFees(rest);
    Read(ReserveConfig(optimalUtilizationRate, loanToValueRatio, liquidationBonus, liquidationThreshold,
                       minBorrowRate, optimalBorrowRate, maxBorrowRate, fees), rest)
  }

  function Unpack(input: seq<u8>): Unpacked<LendingInstruction> {
    var (tag, rest) :- UnpackU8(input);
    UnpackBody(tag, rest)
  }

  function UnpackBody(tag: u8, rest: seq<u8>): Unpacked<LendingInstruction> {
    if tag == 0 then
      var (owner, rest) :- UnpackBytes32(rest);
      var (quoteCurrency, rest) :- UnpackBytes32(rest);
      Read(InitLendingMarket(owner, quoteCurrency), rest)
    else if tag == 1 then
      var (newOwner, rest) :- UnpackBytes32(rest);
      Read(SetLendingMarketOwner(newOwner), rest)
    else if tag == 2 then
      var (liquidityAmount, rest) :- UnpackU64(rest);
      var (config, rest) :- UnpackConfig(rest);
      Read(InitReserve(liquidityAmount, config), rest)
    else if tag == 3 then Read(RefreshReserve, rest)
    else if tag == 6 then Read(InitObligation, rest)
    else if tag == 7 then Read(RefreshObligation, rest)
    else if tag < 14 then
      var (amount, rest) :- UnpackU64(rest);
      Read(AmountInstruction(tag, amount), rest)
    else InstructionUnpackError
  }

  /** The tags whose only field is an amount. */
  predicate IsAmountTag(tag: u8) {
    tag == 4 || tag == 5 || 8 <= tag <= 13
  }

  function AmountInstruction(tag: u8, amount: u64): LendingInstruction
    requires IsAmountTag(tag)
  {
    match tag
    case 4 => DepositReserveLiquidity(amount)
    case 5 => RedeemReserveCollateral(amount)
    case 8 => DepositObligationCollateral(amount)
    case 9 => WithdrawObligationCollateral(amount)
    case 10 => BorrowObligationLiquidity(amount)
    case 11 => RepayObligationLiquidity(amount)
    case 12 => LiquidateObligation(amount)
    case _ => FlashLoan(amount)
  }

  // ----- Encoding -----

  function PackedFees(f: ReserveFees): seq<u8> {
    U64Bytes(f.borrowFeeWad) + (U64Bytes(f.flashLoanFeeWad) + [f.hostFeePercentage])
  }

  function PackedConfig(c: ReserveConfig): seq<u8> {
    [c.optimalUtilizationRate, c.loanToValueRatio, c.liquidationBonus, c.liquidationThreshold,
     c.minBorrowRate, c.optimalBorrowRate, c.maxBorrowRate] + PackedFees(c.fees)
  }

  function Packed(x: LendingInstruction): seq<u8> {
    match x
    case InitLendingMarket(owner, quoteCurrency) => [0] + (owner + quoteCurrency)
    case SetLendingMarketOwner(newOwner) => [1] + newOwner
    case InitReserve(liquidityAmount, config) => [2] + (U64Bytes(liquidityAmount) + PackedConfig(config))
    case RefreshReserve => [3]
    case DepositReserveLiquidity(amount) => [4] + U64Bytes(amount)
    case RedeemReserveCollateral(amount) => [5] + U64Bytes(amount)
    case InitObligation => [6]
    case RefreshObligation => [7]
    case DepositObligationCollateral(amount) => [8] + U64Bytes(amount)
    case WithdrawObligationCollateral(amount) => [9] + U64Bytes(amount)
    case BorrowObligationLiquidity(amount) => [10] + U64Bytes(amount)
    case RepayObligationLiquidity(amount) => [11] + U64Bytes(amount)
    case LiquidateObligation(amount) => [12] + U64Bytes(amount)
    case FlashLoan(amount) => [13] + U64Bytes(amount)
  }

  method PackConfig(c: ReserveConfig) returns (buf: seq<u8>)
    ensures buf == PackedConfig(c)
  {
    buf := [c.optimalUtilizationRate];
    buf := buf + [c.loanToValueRatio];
    buf := buf + [c.liquidationBonus];
    buf := buf + [c.liquidationThreshold];
    buf := buf + [c.minBorrowRate];
    buf := buf + [c.optimalBorrowRate];
    buf := buf + [c.maxBorrowRate];
    buf := buf + U64Bytes(c.fees.borrowFeeWad);
    buf := buf + U64Bytes(c.fees.flashLoanFeeWad);
    buf := buf + [c.fees.hostFeePercentage];
  }

  method PackAmount(tag: u8, amount: u64) returns (buf: seq<u8>)
    ensures buf == [tag] + U64Bytes(amount)
  {
    buf := [];
    buf := buf + [tag];
    buf := buf + U64Bytes(amount);
  }

  method PackMarket(owner: Pubkey, quoteCurrency: Pubkey) returns (buf: seq<u8>)
    ensures buf == Packed(InitLendingMarket(owner, quoteCurrency))
  {
    buf := [0];
    buf := buf + owner;
    buf := buf + quoteCurrency;
  }

  method PackReserve(liquidityAmount: u64, config: ReserveConfig) returns (buf: seq<u8>)
    ensures buf == Packed(InitReserve(liquidityAmount, config))
  {
    buf := PackAmount(2, liquidityAmount);
    var rest := PackConfig(config);
    buf := buf + rest;
  }

  /** Appends tag and fields to a growing buffer. */
  method Pack(x: LendingInstruction) returns (buf: seq<u8>)
    ensures buf == Packed(x)
  {
    buf := [];
    match x {
      case InitLendingMarket(owner, quoteCurrency) => buf := PackMarket(owner, quoteCurrency);
      case SetLendingMarketOwner(newOwner) =>
        buf := buf + [1];
        buf := buf + newOwner;
      case InitReserve(liquidityAmount, config) => buf := PackReserve(liquidityAmount, config);
      case RefreshReserve => buf := buf + [3];
      case DepositReserveLiquidity(amount) =>
        buf := PackAmount(4, amount);
      case RedeemReserveCollateral(amount) =>
        buf := PackAmount(5, amount);
      case InitObligation => buf := buf + [6];
      case RefreshObligation => buf := buf + [7];
      case DepositObligationCollateral(amount) =>
        buf := PackAmount(8, amount);
      case WithdrawObligationCollateral(amount) =>
        buf := PackAmount(9, amount);
      case BorrowObligationLiquidity(amount) =>
        buf := PackAmount(10, amount);
      case RepayObligationLiquidity(amount) =>
        buf := PackAmount(11, amount);
      case LiquidateObligation(amount) =>
        buf := PackAmount(12, amount);
      case FlashLoan(amount) =>
        buf := PackAmount(13, amount);
    }
  }

  /** What the wire format is, byte by byte: the tag counts the instructions in their order of
      declaration and the fields follow, numbers with the lowest byte first. */
  lemma PackedLayout(x: LendingInstruction)
    ensures
      var b := Packed(x);
      match x
      case InitLendingMarket(owner, quoteCurrency) =>
        |b| == 65 && b[0] == 0 && b[1..33] == owner && b[33..65] == quoteCurrency
      case SetLendingMarketOwner(newOwner) => |b| == 33 && b[0] == 1 && b[1..33] == newOwner
      case InitReserve(amount, config) =>
        && |b| == 33 && b[0] == 2 && IsNumberAt(b, 1, amount)
        && b[9] == config.optimalUtilizationRate && b[10] == config.loanToValueRatio
        && b[11] == config.liquidationBonus && b[12] == config.liquidationThreshold
        && b[13] == config.minBorrowRate && b[14] == config.optimalBorrowRate && b[15] == config.maxBorrowRate
        && IsNumberAt(b, 16, config.fees.borrowFeeWad) && IsNumberAt(b, 24, config.fees.flashLoanFeeWad)
        && b[32] == config.fees.hostFeePercentage
      case RefreshReserve => b == [3]
      case DepositReserveLiquidity(amount) => |b| == 9 && b[0] == 4 && IsNumberAt(b, 1, amount)
      case RedeemReserveCollateral(amount) => |b| == 9 && b[0] == 5 && IsNumberAt(b, 1, amount)
      case InitObligation => b == [6]
      case RefreshObligation => b == [7]
      case DepositObligationCollateral(amount) => |b| == 9 && b[0] == 8 && IsNumberAt(b, 1, amount)
      case WithdrawObligationCollateral(amount) => |b| == 9 && b[0] == 9 && IsNumberAt(b, 1, amount)
      case BorrowObligationLiquidity(amount) => |b| == 9 && b[0] == 10 && IsNumberAt(b, 1, amount)
      case RepayObligationLiquidity(amount) => |b| == 9 && b[0] == 11 && IsNumberAt(b, 1, amount)
      case LiquidateObligation(amount) => |b| == 9 && b[0] == 12 && IsNumberAt(b, 1, amount)
      case FlashLoan(amount) => |b| == 9 && b[0] == 13 && IsNumberAt(b, 1, amount)
  {
    var b := Packed(x);
    match x
    case InitLendingMarket(_, _) =>
    case SetLendingMarketOwner(_) =>
    case RefreshReserve =>
    case InitObligation =>
    case RefreshObligation =>
    case InitReserve(amount, config) =>
      assert b[1..9] == U64Bytes(amount) && b[9..] == PackedConfig(config);
      assert b[16..24] == U64Bytes(config.fees.borrowFeeWad) && b[24..32] == U64Bytes(config.fees.flashLoanFeeWad);
      NumberAt(b, 1, amount);
      NumberAt(b, 16, config.fees.borrowFeeWad);
      NumberAt(b, 24, config.fees.flashLoanFeeWad);
    case DepositReserveLiquidity(amount) => NumberAfterTag(4, amount);
    case RedeemReserveCollateral(amount) => NumberAfterTag(5, amount);
    case DepositObligationCollateral(amount) => NumberAfterTag(8, amount);
    case WithdrawObligationCollateral(amount) => NumberAfterTag(9, amount);
    case BorrowObligationLiquidity(amount) => NumberAfterTag(10, amount);
    case RepayObligationLiquidity(amount) => NumberAfterTag(11, amount);
    case LiquidateObligation(amount) => NumberAfterTag(12, amount);
    case FlashLoan(amount) => NumberAfterTag(13, amount);
  }

  lemma NumberAfterTag(tag: u8, x: u64)
    ensures IsNumberAt([tag] + U64Bytes(x), 1, x)
  {
    assert ([tag] + U64Bytes(x))[1..9] == U64Bytes(x);
    NumberAt([tag] + U64Bytes(x), 1, x);
  }

  /** The eight bytes from `at` on are the number's digits to base 256, the lowest first. */
  ghost predicate IsNumberAt(b: seq<u8>, at: nat, x: u64) {
    at + 8 <= |b| && forall j :: 0 <= j < 8 ==> b[at + j] == x / Pow256(j) % 256
  }

  lemma NumberAt(b: seq<u8>, at: nat, x: u64)
    requires at + 8 <= |b| && b[at..at + 8] == U64Bytes(x)
    ensures IsNumberAt(b, at, x)
  {
    forall j | 0 <= j < 8
      ensures b[at + j] == x / Pow256(j) % 256
    {
      assert b[at + j] == b[at..at + 8][j];
      LittleEndianDigits(x, 8, j);
    }
  }

  // ----- Round trips -----

  lemma ReadU64(x: u64, rest: seq<u8>)
    ensures UnpackU64(U64Bytes(x) + rest) == Read(x, rest)
  {
    U64RoundTrip(x);
    assert (U64Bytes(x) + rest)[..8] == U64Bytes(x);
  }

  lemma ReadBytes32(x: Pubkey, rest: seq<u8>)
    ensures UnpackBytes32(x + rest) == Read(x, rest)
  {
  }

  lemma ReadU8(x: u8, rest: seq<u8>)
    ensures UnpackU8([x] + rest) == Read(x, rest)
  {
  }

  lemma ReadFees(f: ReserveFees, rest: seq<u8>)
    ensures UnpackFees(PackedFees(f) + rest) == Read(f, rest)
  {
    var tail2 := [f.hostFeePercentage] + rest;
    var tail1 := U64Bytes(f.flashLoanFeeWad) + tail2;
    assert PackedFees(f) + rest == U64Bytes(f.borrowFeeWad) + tail1;
    ReadU64(f.borrowFeeWad, tail1);
    ReadU64(f.flashLoanFeeWad, tail2);
    ReadU8(f.hostFeePercentage, rest);
  }

  lemma ReadConfig(c: ReserveConfig, rest: seq<u8>)
    ensures UnpackConfig(PackedConfig(c) + rest) == Read(c, rest)
  {
    var t7 := PackedFees(c.fees) + rest;
    var t6 := [c.maxBorrowRate] + t7;
    var t5 := [c.optimalBorrowRate] + t6;
    var t4 := [c.minBorrowRate] + t5;
    var t3 := [c.liquidationThreshold] + t4;
    var t2 := [c.liquidationBonus] + t3;
    var t1 := [c.loanToValueRatio] + t2;
    assert PackedConfig(c) + rest == [c.optimalUtilizationRate] + t1;
    ReadU8(c.optimalUtilizationRate, t1);
    ReadU8(c.loanToValueRatio, t2);
    ReadU8(c.liquidationBonus, t3);
    ReadU8(c.liquidationThreshold, t4);
    ReadU8(c.minBorrowRate, t5);
    ReadU8(c.optimalBorrowRate, t6);
    ReadU8(c.maxBorrowRate, t7);
    ReadFees(c.fees, rest);
  }

  lemma UnpackTagged(tag: u8, tail: seq<u8>)
    ensures Unpack([tag] + tail) == UnpackBody(tag, tail)
  {
    ReadU8(tag, tail);
  }

  lemma BodyOfAmount(tag: u8, amount: u64, suffix: seq<u8>)
    requires IsAmountTag(tag)
    ensures UnpackBody(tag, U64Bytes(amount) + suffix) == Read(AmountInstruction(tag, amount), suffix)
    ensures Packed(AmountInstruction(tag, amount)) == [tag] + U64Bytes(amount)
  {
    ReadU64(amount, suffix);
  }

  lemma BodyOfMarket(owner: Pubkey, quoteCurrency: Pubkey, suffix: seq<u8>)
    ensures UnpackBody(0, (owner + quoteCurrency) + suffix) == Read(InitLendingMarket(owner, quoteCurrency), suffix)
  {
    assert (owner + quoteCurrency) + suffix == owner + (quoteCurrency + suffix);
    ReadBytes32(owner, quoteCurrency + suffix);
    ReadBytes32(quoteCurrency, suffix);
  }

  lemma BodyOfReserve(amount: u64, config: ReserveConfig, suffix: seq<u8>)
    ensures UnpackBody(2, (U64Bytes(amount) + PackedConfig(config)) + suffix)
         == Read(InitReserve(amount, config), suffix)
  {
    var tail := PackedConfig(config) + suffix;
    assert (U64Bytes(amount) + PackedConfig(config)) + suffix == U64Bytes(amount) + tail;
    ReadU64(amount, tail);
    ReadConfig(config, suffix);
  }

  /** The tag of an instruction and the bytes that follow it. */
  function TagOf(x: LendingInstruction): u8 {
    match x
    case InitLendingMarket(_, _) => 0
    case SetLendingMarketOwner(_) => 1
    case InitReserve(_, _) => 2
    case RefreshReserve => 3
    case DepositReserveLiquidity(_) => 4
    case RedeemReserveCollateral(_) => 5
    case InitObligation => 6
    case RefreshObligation => 7
    case DepositObligationCollateral(_) => 8
    case WithdrawObligationCollateral(_) => 9
    case BorrowObligationLiquidity(_) => 10
    case RepayObligationLiquidity(_) => 11
    case LiquidateObligation(_) => 12
    case FlashLoan(_) => 13
  }

  lemma BodyOfPacked(x: LendingInstruction, suffix: seq<u8>)
    ensures |Packed(x)| > 0 && Packed(x)[0] == TagOf(x)
    ensures UnpackBody(TagOf(x), Packed(x)[1..] + suffix) == Read(x, suffix)
  {
    match x
    case InitLendingMarket(owner, quoteCurrency) =>
      assert Packed(x)[1..] == owner + quoteCurrency;
      BodyOfMarket(owner, quoteCurrency, suffix);
    case SetLendingMarketOwner(newOwner) =>
      assert Packed(x)[1..] == newOwner;
      ReadBytes32(newOwner, suffix);
    case InitReserve(amount, config) =>
      assert Packed(x)[1..] == U64Bytes(amount) + PackedConfig(config);
      BodyOfReserve(amount, config, suffix);
    case RefreshReserve => assert [] + suffix == suffix;
    case InitObligation => assert [] + suffix == suffix;
    case RefreshObligation => assert [] + suffix == suffix;
    case DepositReserveLiquidity(amount) => BodyOfAmount(4, amount, suffix);
    case RedeemReserveCollateral(amount) => BodyOfAmount(5, amount, suffix);
    case DepositObligationCollateral(amount) => BodyOfAmount(8, amount, suffix);
    case WithdrawObligationCollateral(amount) => BodyOfAmount(9, amount, suffix);
    case BorrowObligationLiquidity(amount) => BodyOfAmount(10, amount, suffix);
    case RepayObligationLiquidity(amount) => BodyOfAmount(11, amount, suffix);
    case LiquidateObligation(amount) => BodyOfAmount(12, amount, suffix);
    case FlashLoan(amount) => BodyOfAmount(13, amount, suffix);
  }

  /** Decoding an encoded instruction gives it back, whatever follows it. */
  lemma UnpackPacked(x: LendingInstruction, suffix: seq<u8>)
    ensures Unpack(Packed(x) + suffix) == Read(x, suffix)
  {
    BodyOfPacked(x, suffix);
    TagFirst(Packed(x), suffix);
    UnpackTagged(TagOf(x), Packed(x)[1..] + suffix);
  }

  lemma TagFirst(packed: seq<u8>, suffix: seq<u8>)
    requires |packed| > 0
    ensures packed + suffix == [packed[0]] + (packed[1..] + suffix)
  {
  }

  lemma WroteU64(b: seq<u8>)
    requires UnpackU64(b).Read?
    ensures b == U64Bytes(UnpackU64(b).value) + UnpackU64(b).rest
  {
  }

  lemma WroteFees(b: seq<u8>)
    requires UnpackFees(b).Read?
    ensures b == PackedFees(UnpackFees(b).value) + UnpackFees(b).rest
  {
    WroteU64(b);
    var r1 := UnpackU64(b).rest;
    WroteU64(r1);
    var r2 := UnpackU64(r1).rest;
    assert r2 == [r2[0]] + r2[1..];
  }

  lemma WroteConfig(b: seq<u8>)
    requires UnpackConfig(b).Read?
    ensures b == PackedConfig(UnpackConfig(b).value) + UnpackConfig(b).rest
  {
    assert |b| >= 7;
    assert b[1..][1..] == b[2..] && b[2..][1..] == b[3..] && b[3..][1..] == b[4..];
    assert b[4..][1..] == b[5..] && b[5..][1..] == b[6..] && b[6..][1..] == b[7..];
    WroteFees(b[7..]);
    assert b == b[..7] + b[7..];
  }

  /** Whatever decodes starts with the encoding of what it decodes to, and the rest is left over. */
  lemma PackedUnpack(b: seq<u8>)
    requires Unpack(b).Read?
    ensures b == Packed(Unpack(b).value) + Unpack(b).rest
  {
    var tag, tail := b[0], b[1..];
    assert b == [tag] + tail;
    var x, rest := Unpack(b).value, Unpack(b).rest;
    WroteBody(tag, tail);
    Rejoin(b, tail, Packed(x), rest);
  }

  lemma Rejoin(b: seq<u8>, tail: seq<u8>, packed: seq<u8>, rest: seq<u8>)
    requires |packed| > 0 && b == [packed[0]] + tail && tail == packed[1..] + rest
    ensures b == packed + rest
  {
    assert packed == [packed[0]] + packed[1..];
  }

  lemma WroteBody(tag: u8, tail: seq<u8>)
    requires UnpackBody(tag, tail).Read?
    ensures
      var x := UnpackBody(tag, tail).value;
      |Packed(x)| > 0 && Packed(x)[0] == tag && tail == Packed(x)[1..] + UnpackBody(tag, tail).rest
  {
    var x, rest := UnpackBody(tag, tail).value, UnpackBody(tag, tail).rest;
    if tag == 0 {
      assert Packed(x)[1..] == x.owner + x.quoteCurrency;
      assert tail == (x.owner + x.quoteCurrency) + rest;
    } else if tag == 1 {
      assert Packed(x)[1..] == x.newOwner;
      assert tail == x.newOwner + rest;
    } else if tag == 2 {
      WroteReserve(tail);
    } else if IsAmountTag(tag) {
      WroteU64(tail);
      BodyOfAmount(tag, UnpackU64(tail).value, rest);
    }
  }

  lemma WroteReserve(tail: seq<u8>)
    requires UnpackBody(2, tail).Read?
    ensures
      var x := UnpackBody(2, tail).value;
      Packed(x)[0] == 2 && tail == Packed(x)[1..] + UnpackBody(2, tail).rest
  {
    var x, rest := UnpackBody(2, tail).value, UnpackBody(2, tail).rest;
    WroteU64(tail);
    WroteConfig(UnpackU64(tail).rest);
    assert Packed(x)[1..] == U64Bytes(x.liquidityAmount) + PackedConfig(x.config);
  }

  /** Bytes decode exactly when they start with the encoding of some instruction. */
  lemma DecodesExactly(b: seq<u8>)
    ensures Unpack(b).Read? <==> exists x :: Packed(x) <= b
  {
    if Unpack(b).Read? {
      PackedUnpack(b);
      assert Packed(Unpack(b).value) <= b;
    }
    forall x | Packed(x) <= b
      ensures Unpack(b).Read?
    {
      assert b == Packed(x) + b[|Packed(x)|..];
      UnpackPacked(x, b[|Packed(x)|..]);
    }
  }

  lemma SameBytes(b: seq<u8>, x: LendingInstruction, rx: seq<u8>, y: LendingInstruction, ry: seq<u8>)
    requires b == Packed(x) + rx && b == Packed(y) + ry
    ensures x == y && rx == ry
  {
    UnpackPacked(x, rx);
    UnpackPacked(y, ry);
  }

  /** No encoding starts with another: the encoding is injective and prefix-free. */
  lemma PrefixFree(x: LendingInstruction, y: LendingInstruction)
    requires Packed(x) <= Packed(y)
    ensures x == y
  {
    var b := Packed(y);
    assert b == Packed(x) + b[|Packed(x)|..];
    assert b == Packed(y) + [];
    SameBytes(b, x, b[|Packed(x)|..], y, []);
  }
}
