/** Validator records, their 73-byte packed form and the comparisons made on raw bytes. */
module Records {
  import opened Numbers

  type Pubkey = s: seq<u8> | |s| == 32 witness seq(32, _ => 0)

  datatype StakeStatus = Active | DeactivatingTransient | ReadyForRemoval

  datatype ValidatorStakeInfo = ValidatorStakeInfo(
    activeStakeLamports: u64,
    transientStakeLamports: u64,
    lastUpdateEpoch: u64,
    transientSeedSuffixStart: u64,
    transientSeedSuffixEnd: u64,
    status: StakeStatus,
    voteAccountAddress: Pubkey
  )

  const RECORD_LEN: nat := 73

  function StatusByte(s: StakeStatus): u8 {
    match s
    case Active => 0
    case DeactivatingTransient => 1
    case ReadyForRemoval => 2
  }

  function StatusOf(b: u8): Option<StakeStatus> {
    if b == 0 then Some(Active)
    else if b == 1 then Some(DeactivatingTransient)
    else if b == 2 then Some(ReadyForRemoval)
    else None
  }

  function Encode(r: ValidatorStakeInfo): (b: seq<u8>)
    ensures |b| == RECORD_LEN
  {
    U64Bytes(r.activeStakeLamports) + U64Bytes(r.transientStakeLamports) + U64Bytes(r.lastUpdateEpoch)
    + U64Bytes(r.transientSeedSuffixStart) + U64Bytes(r.transientSeedSuffixEnd)
    + [StatusByte(r.status)] + r.voteAccountAddress
  }

  /** The record the bytes stand for; only an unknown status byte has none. */
  function Decode(b: seq<u8>): Option<ValidatorStakeInfo>
    requires |b| == RECORD_LEN
  {
    match StatusOf(b[40])
    case None => None
    case Some(status) =>
      Some(ValidatorStakeInfo(
             U64Of(b[0..8]), U64Of(b[8..16]), U64Of(b[16..24]), U64Of(b[24..32]), U64Of(b[32..40]),
             status, b[41..73]))
  }

  lemma EncodedFields(r: ValidatorStakeInfo)
    ensures
      var b := Encode(r);
      && b[0..8] == U64Bytes(r.activeStakeLamports)
      && b[8..16] == U64Bytes(r.transientStakeLamports)
      && b[16..24] == U64Bytes(r.lastUpdateEpoch)
      && b[24..32] == U64Bytes(r.transientSeedSuffixStart)
      && b[32..40] == U64Bytes(r.transientSeedSuffixEnd)
      && b[40] == StatusByte(r.status)
      && b[41..73] == r.voteAccountAddress
  {
  }

  /** Where every byte of a record is: five little-endian numbers, the status and the vote address. */
  lemma RecordLayout(r: ValidatorStakeInfo, j: nat)
    requires j < 8
    ensures
      var b := Encode(r);
      && b[j] == r.activeStakeLamports / Pow256(j) % 256
      && b[8 + j] == r.transientStakeLamports / Pow256(j) % 256
      && b[16 + j] == r.lastUpdateEpoch / Pow256(j) % 256
      && b[24 + j] == r.transientSeedSuffixStart / Pow256(j) % 256
      && b[32 + j] == r.transientSeedSuffixEnd / Pow256(j) % 256
      && b[40] == (if r.status == Active then 0 else if r.status == DeactivatingTransient then 1 else 2)
      && b[41..] == r.voteAccountAddress
  {
    var b := Encode(r);
    EncodedFields(r);
    LittleEndianDigits(r.activeStakeLamports, 8, j);
    LittleEndianDigits(r.transientStakeLamports, 8, j);
    LittleEndianDigits(r.lastUpdateEpoch, 8, j);
    LittleEndianDigits(r.transientSeedSuffixStart, 8, j);
    LittleEndianDigits(r.transientSeedSuffixEnd, 8, j);
    assert b[8 + j] == b[8..16][j] && b[16 + j] == b[16..24][j];
    assert b[24 + j] == b[24..32][j] && b[32 + j] == b[32..40][j] && b[j] == b[0..8][j];
    assert b[41..] == b[41..73];
  }

  /** Packing a record and reading the bytes back gives the record. */
  lemma DecodeEncode(r: ValidatorStakeInfo)
    ensures Decode(Encode(r)) == Some(r)
  {
    EncodedFields(r);
    U64RoundTrip(r.activeStakeLamports);
    U64RoundTrip(r.transientStakeLamports);
    U64RoundTrip(r.lastUpdateEpoch);
    U64RoundTrip(r.transientSeedSuffixStart);
    U64RoundTrip(r.transientSeedSuffixEnd);
  }

  /** Reading bytes that hold a record and packing it again gives the same bytes. */
  lemma EncodeDecode(b: seq<u8>)
    requires |b| == RECORD_LEN && Decode(b).Some?
    ensures Encode(Decode(b).value) == b
  {
    var r := Decode(b).value;
    assert b == b[0..8] + b[8..16] + b[16..24] + b[24..32] + b[32..40] + [b[40]] + b[41..73];
    assert StatusByte(r.status) == b[40];
  }

  // ----- Comparisons on raw bytes -----

  predicate MemcmpPubkey(data: seq<u8>, key: seq<u8>) {
    |data| == RECORD_LEN && data[41..73] == key
  }

  predicate ActiveLamportsNotEqual(data: seq<u8>, lamports: seq<u8>) {
    |data| == RECORD_LEN && data[0..8] != lamports
  }

  predicate TransientLamportsNotEqual(data: seq<u8>, lamports: seq<u8>) {
    |data| == RECORD_LEN && data[8..16] != lamports
  }

  predicate IsNotRemoved(data: seq<u8>) {
    |data| == RECORD_LEN ==> StatusOf(data[40]) != Some(ReadyForRemoval)
  }

  /** Every raw comparison decides what it is named for. */
  lemma RawComparisonsAgree(b: seq<u8>, vote: Pubkey, lamports: u64)
    requires |b| == RECORD_LEN && Decode(b).Some?
    ensures MemcmpPubkey(b, vote) <==> Decode(b).value.voteAccountAddress == vote
    ensures ActiveLamportsNotEqual(b, U64Bytes(lamports)) <==> Decode(b).value.activeStakeLamports != lamports
    ensures TransientLamportsNotEqual(b, U64Bytes(lamports)) <==> Decode(b).value.transientStakeLamports != lamports
    ensures IsNotRemoved(b) <==> Decode(b).value.status != ReadyForRemoval
  {
    U64RoundTrip(lamports);
  }
}
