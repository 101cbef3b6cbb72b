/** The doubling program (`doubleit-program`): it takes the first account,
    insists that it signed, reads a `CounterState` from its data, turns 0
    into 1 and any other count c into 2c, and writes the result back. */
module DoubleIt {
  import opened Solana
  import opened Borsh

  /** What one call of a program does: its result and the accounts as the
      program leaves them. */
  datatype Effect = Effect(result: ProgramResult, accounts: seq<AccountInfo>)

  /** Counts below this bound can be doubled without leaving the u32 range. */
  const DOUBLING_BOUND: int := 0x8000_0000

  /** The counter rule: 0 becomes 1, c becomes 2c. When 2c does not fit in a
      u32 the call fails with `Unspecified` and writes nothing, which is how
      a build with overflow checks behaves (`count * 2` panics); a build that
      wraps instead is not modelled. */
  function Transition(s: CounterState): (r: Result<CounterState>)
    ensures r.Ok? <==> (s.count as int) < DOUBLING_BOUND
    ensures r.Err? ==> r.error == Unspecified
    ensures r.Ok? ==> Doubles(s.count as nat, r.value.count as nat)
    ensures r.Ok? ==> 0 < r.value.count && s.count < r.value.count
  {
    if s.count == 0 then Ok(CounterState(1))
    else if (s.count as int) * 2 > U32_MAX then Err(Unspecified)
    else Ok(CounterState(s.count * 2))
  }

  /** The relation between the count before and after a successful call,
      stated on plain numbers. */
  predicate Doubles(before: nat, after: nat) {
    if before == 0 then after == 1 else after == 2 * before
  }

  /** The condition under which a call succeeds: a first account that signed,
      holding exactly four bytes whose count can be doubled. */
  predicate Admissible(accounts: seq<AccountInfo>) {
    && accounts != []
    && accounts[0].isSigner
    && |accounts[0].data| == 4
    && LeValue(accounts[0].data) < DOUBLING_BOUND
  }

  /** `process_instruction` of the doubling program. The program id and the
      instruction data are accepted and never looked at. */
  function Process(programId: Pubkey, accounts: seq<AccountInfo>, instructionData: seq<u8>): (r: Effect)
    ensures r.result.Err? ==> r.accounts == accounts
    ensures r.result.Ok? <==> Admissible(accounts)
    ensures r.result.Ok? ==>
              && |r.accounts| == |accounts|
              && r.accounts[0] == accounts[0].(data := r.accounts[0].data)
              && r.accounts[1..] == accounts[1..]
              && |r.accounts[0].data| == 4
              && Doubles(LeValue(accounts[0].data), LeValue(r.accounts[0].data))
  {
    match NextAccountInfo(accounts)
    case Err(e) => Effect(Err(e), accounts)
    case Ok((dataAccount, _)) =>
      if !dataAccount.isSigner then Effect(Err(MissingRequiredSignature), accounts)
      else
        match TryFromSlice(dataAccount.data)
        case Err(e) => Effect(Err(e), accounts)
        case Ok(state) =>
          match Transition(state)
          case Err(e) => Effect(Err(e), accounts)
          case Ok(next) =>
            match SerializeInto(next, dataAccount.data)
            case Err(e) => Effect(Err(e), accounts)
            case Ok(data) =>
              assert data == data[..4];
              Effect(Ok(()), accounts[0 := dataAccount.(data := data)])
  }

  /** Which error a failing call reports, in the order the checks run: the
      account fetch, the signer check, decoding, then the doubling. */
  lemma ErrorOrder(programId: Pubkey, accounts: seq<AccountInfo>, instructionData: seq<u8>)
    ensures var r := Process(programId, accounts, instructionData);
            accounts == [] ==> r == Effect(Err(NotEnoughAccountKeys), accounts)
    ensures var r := Process(programId, accounts, instructionData);
            accounts != [] && !accounts[0].isSigner ==>
              r == Effect(Err(MissingRequiredSignature), accounts)
    ensures var r := Process(programId, accounts, instructionData);
            accounts != [] && accounts[0].isSigner && |accounts[0].data| != 4 ==>
              r == Effect(Err(BorshIoError), accounts)
    ensures var r := Process(programId, accounts, instructionData);
            accounts != [] && accounts[0].isSigner && |accounts[0].data| == 4
            && LeValue(accounts[0].data) >= DOUBLING_BOUND ==>
              r == Effect(Err(Unspecified), accounts)
  {
  }

  /** The outcome depends only on the accounts: neither the program id nor
      the instruction data changes anything. */
  lemma IgnoresProgramIdAndData(p1: Pubkey, p2: Pubkey, accounts: seq<AccountInfo>, d1: seq<u8>, d2: seq<u8>)
    ensures Process(p1, accounts, d1) == Process(p2, accounts, d2)
  {
  }

  /** The accounts with the first one's data replaced by the bytes of `v`. */
  function WithCount(accounts: seq<AccountInfo>, v: u32): seq<AccountInfo>
    requires accounts != []
  {
    accounts[0 := accounts[0].(data := EncodeU32(v))]
  }

  /** One call on a signed account whose four bytes hold a count below
      2^31 succeeds and leaves exactly the bytes of the next count in it:
      1 for 0, and twice the count otherwise. */
  lemma CallOnEncodedCount(programId: Pubkey, accounts: seq<AccountInfo>, instructionData: seq<u8>, c: u32)
    requires accounts != [] && accounts[0].isSigner && (c as int) < DOUBLING_BOUND
    ensures var next := if c == 0 then 1 else 2 * c;
            Process(programId, WithCount(accounts, c), instructionData)
            == Effect(Ok(()), WithCount(accounts, next))
  {
    var before := WithCount(accounts, c);
    var next: u32 := if c == 0 then 1 else 2 * c;
    assert Admissible(before);
    var r := Process(programId, before, instructionData);
    EncodeDecode(r.accounts[0].data);
    assert r.accounts == before[0 := before[0].(data := r.accounts[0].data)];
  }

  /** A freshly allocated, all-zero counter account that signed becomes 1,
      not 0. */
  lemma ZeroBecomesOne(programId: Pubkey, accounts: seq<AccountInfo>, instructionData: seq<u8>)
    requires accounts != [] && accounts[0].isSigner && accounts[0].data == [0, 0, 0, 0]
    ensures Process(programId, accounts, instructionData).result == Ok(())
    ensures Process(programId, accounts, instructionData).accounts
            == accounts[0 := accounts[0].(data := [1, 0, 0, 0])]
  {
    assert EncodeU32(0) == [0, 0, 0, 0];
    assert EncodeU32(1) == [1, 0, 0, 0];
    assert accounts == WithCount(accounts, 0);
    CallOnEncodedCount(programId, accounts, instructionData, 0);
  }

  /** After a successful call the count is nonzero, and a power of two stays
      a power of two. */
  lemma SuccessKeepsPowerOfTwo(programId: Pubkey, accounts: seq<AccountInfo>, instructionData: seq<u8>)
    requires Process(programId, accounts, instructionData).result.Ok?
    ensures LeValue(Process(programId, accounts, instructionData).accounts[0].data) != 0
    ensures IsPowerOfTwo(LeValue(accounts[0].data)) ==>
              IsPowerOfTwo(LeValue(Process(programId, accounts, instructionData).accounts[0].data))
  {
    var after := LeValue(Process(programId, accounts, instructionData).accounts[0].data);
    var before := LeValue(accounts[0].data);
    if before != 0 {
      assert after == 2 * before && after / 2 == before;
    }
  }

  /** 2^k. */
  function Pow2(k: nat): (p: nat)
    ensures p >= 1
  {
    if k == 0 then 1 else 2 * Pow2(k - 1)
  }

  /** 1, 2, 4, 8, ... */
  predicate IsPowerOfTwo(n: nat)
    decreases n
  {
    n == 1 || (n >= 2 && n % 2 == 0 && IsPowerOfTwo(n / 2))
  }

  lemma {:induction false} Pow2IsPowerOfTwo(k: nat)
    ensures IsPowerOfTwo(Pow2(k))
  {
    if k > 0 {
      Pow2IsPowerOfTwo(k - 1);
      assert Pow2(k) / 2 == Pow2(k - 1);
    }
  }

  lemma {:induction false} Pow2Add(j: nat, k: nat)
    ensures Pow2(j + k) == Pow2(j) * Pow2(k)
  {
    if j > 0 {
      Pow2Add(j - 1, k);
      assert Pow2(j + k) == 2 * Pow2(j - 1 + k);
    }
  }

  lemma Pow2Of31()
    ensures Pow2(31) == DOUBLING_BOUND
  {
    assert Pow2(1) == 2;
    Pow2Add(1, 1);
    Pow2Add(2, 1);
    Pow2Add(2, 2);
    Pow2Add(4, 3);
    Pow2Add(4, 4);
    Pow2Add(8, 7);
    Pow2Add(8, 8);
    Pow2Add(16, 15);
  }

  /** Every power of two up to 2^31 fits in a u32. */
  lemma Pow2Bounded(k: nat)
    requires k <= 31
    ensures Pow2(k) <= DOUBLING_BOUND
  {
    Pow2Monotone(k, 31);
    Pow2Of31();
  }

  lemma {:induction false} Pow2Monotone(j: nat, k: nat)
    requires j <= k
    ensures Pow2(j) <= Pow2(k)
  {
    if j < k {
      Pow2Monotone(j, k - 1);
    }
  }

  /** 2^k as a u32. */
  function Pow2U32(k: nat): (p: u32)
    requires k <= 31
    ensures p as nat == Pow2(k)
  {
    Pow2Bounded(k);
    Pow2(k) as u32
  }

  /** The accounts after `n` consecutive calls (each one a transaction of its
      own: a failed call leaves the accounts as they were). */
  function Calls(n: nat, programId: Pubkey, accounts: seq<AccountInfo>, instructionData: seq<u8>): seq<AccountInfo>
  {
    if n == 0 then accounts
    else Process(programId, Calls(n - 1, programId, accounts, instructionData), instructionData).accounts
  }

  /** One call on a signed account holding 2^k with k < 31 succeeds and
      leaves 2^(k+1) in it. */
  lemma DoublingStep(programId: Pubkey, accounts: seq<AccountInfo>, instructionData: seq<u8>, k: nat)
    requires k < 31
    requires accounts != [] && accounts[0].isSigner
    ensures Process(programId, WithCount(accounts, Pow2U32(k)), instructionData)
            == Effect(Ok(()), WithCount(accounts, Pow2U32(k + 1)))
  {
    Pow2Bounded(k + 1);
    assert Pow2(k + 1) == 2 * Pow2(k);
    CallOnEncodedCount(programId, accounts, instructionData, Pow2U32(k));
  }

  /** Starting from a zero counter, every one of `n` consecutive calls
      succeeds and the counter ends at 2^(n-1): 0, 1, 2, 4, 8, ... The bound
      on `n` keeps every doubling inside the u32 range. */
  lemma {:induction false} RepeatedCallsDouble(n: nat, programId: Pubkey, accounts: seq<AccountInfo>, instructionData: seq<u8>)
    requires 1 <= n <= 32
    requires accounts != [] && accounts[0].isSigner && accounts[0].data == [0, 0, 0, 0]
    ensures Process(programId, Calls(n - 1, programId, accounts, instructionData), instructionData).result == Ok(())
    ensures Calls(n, programId, accounts, instructionData) == WithCount(accounts, Pow2U32(n - 1))
    ensures IsPowerOfTwo(LeValue(Calls(n, programId, accounts, instructionData)[0].data))
  {
    if n == 1 {
      ZeroBecomesOne(programId, accounts, instructionData);
      assert EncodeU32(1) == [1, 0, 0, 0];
    } else {
      RepeatedCallsDouble(n - 1, programId, accounts, instructionData);
      DoublingStep(programId, accounts, instructionData, n - 2);
    }
    Pow2IsPowerOfTwo(n - 1);
  }

  lemma EightAsBytes()
    ensures EncodeU32(Pow2U32(3)) == [8, 0, 0, 0]
  {
    assert Pow2U32(3) == 8;
  }

  /** The sequence the program's tests expect: four calls on a fresh account
      leave 8 in it. */
  lemma FourCallsGiveEight(programId: Pubkey, accounts: seq<AccountInfo>, instructionData: seq<u8>)
    requires accounts != [] && accounts[0].isSigner && accounts[0].data == [0, 0, 0, 0]
    ensures Calls(4, programId, accounts, instructionData) == accounts[0 := accounts[0].(data := [8, 0, 0, 0])]
  {
    RepeatedCallsDouble(4, programId, accounts, instructionData);
    EightAsBytes();
  }

}
