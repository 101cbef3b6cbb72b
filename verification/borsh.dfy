/** The Borsh layout of `CounterState { count: u32 }`: four bytes, least
    significant first, and nothing else. */
module Borsh {
  import opened Solana

  /** The account payload of the doubling program. */
  datatype CounterState = CounterState(count: u32)

  /** 256^w, the number of values `w` bytes can hold. */
  function Pow256(w: nat): (p: nat)
    ensures p >= 1
  {
    if w == 0 then 1 else 0x100 * Pow256(w - 1)
  }

  /** The number a little-endian byte string stands for. This is the
      reference meaning the encoder and decoder are checked against. */
  function LeValue(b: seq<u8>): (v: nat)
    ensures v < Pow256(|b|)
  {
    if b == [] then 0 else b[0] as nat + 0x100 * LeValue(b[1..])
  }

  /** The `width` low-order bytes of `v`, least significant first. */
  function LeBytes(v: nat, width: nat): (b: seq<u8>)
    ensures |b| == width
  {
    if width == 0 then [] else [(v % 0x100) as u8] + LeBytes(v / 0x100, width - 1)
  }

  /** Splitting off the low byte of a number. */
  lemma Split256(x: int, q: int, r: int)
    requires 0 <= r < 0x100 && x == r + 0x100 * q
    ensures x / 0x100 == q && x % 0x100 == r
  {
  }

  /** Encoding a value that fits and reading it back gives the value. */
  lemma {:induction false} LeValueOfBytes(v: nat, width: nat)
    requires v < Pow256(width)
    ensures LeValue(LeBytes(v, width)) == v
  {
    if width > 0 {
      var b := LeBytes(v, width);
      assert b[1..] == LeBytes(v / 0x100, width - 1);
      assert v / 0x100 < Pow256(width - 1);
      LeValueOfBytes(v / 0x100, width - 1);
    }
  }

  /** A byte string is fixed by the number it stands for. */
  lemma {:induction false} BytesOfLeValue(b: seq<u8>)
    ensures LeBytes(LeValue(b), |b|) == b
  {
    if b != [] {
      Split256(LeValue(b), LeValue(b[1..]), b[0] as int);
      BytesOfLeValue(b[1..]);
      assert [b[0]] + b[1..] == b;
    }
  }

  lemma Pow256Of4()
    ensures Pow256(4) == 0x1_0000_0000
  {
  }

  /** `u32::to_le_bytes`. */
  function EncodeU32(v: u32): (b: seq<u8>)
    ensures |b| == 4 && LeValue(b) == v as nat
  {
    Pow256Of4();
    LeValueOfBytes(v as nat, 4);
    LeBytes(v as nat, 4)
  }

  /** `u32::from_le_bytes`. */
  function DecodeU32(b: seq<u8>): (v: u32)
    requires |b| == 4
    ensures EncodeU32(v) == b
  {
    Pow256Of4();
    BytesOfLeValue(b);
    LeValue(b) as u32
  }

  /** `CounterState::try_from_slice`: reading the u32 fails when fewer than
      four bytes are present, and the whole call fails when bytes are left
      over; Solana turns either I/O error into `BorshIoError`. */
  function TryFromSlice(data: seq<u8>): (r: Result<CounterState>)
    ensures r.Ok? <==> |data| == 4
    ensures r.Err? ==> r.error == BorshIoError
    ensures r.Ok? ==> r.value.count as nat == LeValue(data)
  {
    if |data| < 4 then Err(BorshIoError)
    else if |data| > 4 then Err(BorshIoError)
    else Ok(CounterState(DecodeU32(data)))
  }

  /** `counter_state.serialize(&mut data)`: the four bytes overwrite the
      front of the slice; a slice shorter than four bytes cannot take them
      and the write fails. */
  function SerializeInto(s: CounterState, dst: seq<u8>): (r: Result<seq<u8>>)
    ensures r.Ok? <==> |dst| >= 4
    ensures r.Err? ==> r.error == BorshIoError
    ensures r.Ok? ==> |r.value| == |dst| && r.value[4..] == dst[4..]
                      && LeValue(r.value[..4]) == s.count as nat
  {
    if |dst| < 4 then Err(BorshIoError)
    else
      var b := EncodeU32(s.count) + dst[4..];
      assert b[..4] == EncodeU32(s.count);
      Ok(b)
  }

  /** Decoding an encoded u32 gives it back. */
  lemma DecodeEncode(v: u32)
    ensures DecodeU32(EncodeU32(v)) == v
  {
  }

  /** Four bytes are determined by the number they stand for, so encoding a
      decoded value gives the same bytes back. */
  lemma EncodeDecode(b: seq<u8>)
    requires |b| == 4
    ensures EncodeU32(DecodeU32(b)) == b
  {
  }

  /** Writing the state into a four-byte account and reading it back gives
      the same state: the write-back of the doubling program round-trips. */
  lemma SerializeThenDecode(s: CounterState, dst: seq<u8>)
    requires |dst| == 4
    ensures SerializeInto(s, dst).Ok?
    ensures TryFromSlice(SerializeInto(s, dst).value) == Ok(s)
  {
    assert SerializeInto(s, dst).value == SerializeInto(s, dst).value[..4];
  }

  /** Decoding four bytes and writing the result back leaves them as they were. */
  lemma DecodeThenSerialize(data: seq<u8>)
    requires TryFromSlice(data).Ok?
    ensures SerializeInto(TryFromSlice(data).value, data) == Ok(data)
  {
    EncodeDecode(data);
    assert TryFromSlice(data).value == CounterState(DecodeU32(data));
    assert EncodeU32(DecodeU32(data)) + data[4..] == data;
  }
}
