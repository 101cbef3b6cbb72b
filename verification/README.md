# Double-it counter programs, modelled in Dafny

A model of three small Solana programs and the proofs of what they do.

- **Doubling program** (`doubleit-program`). It takes the first account and requires that it signed. It reads the account data as a Borsh `CounterState { count: u32 }`, which is four little-endian bytes. It turns 0 into 1 and any other count `c` into `2c`, and writes the result back into the same bytes.
- **CPI dispatcher** (`doubleit-program-with-cpi`). It takes a data account and a target program account, and requires that the data account signed. It builds one instruction for the target program. That instruction carries the data account as its only signer and writable account, plus the dispatcher's own instruction data unchanged. It passes the instruction to `invoke` and returns what `invoke` returns.
- **PDA dispatcher** (`doubleit-program-with-cpi-on-pdas`). It takes a program-derived data account, a user account and a target program account, and does no signer check. It builds the same shape of instruction for the third account's key. It passes the instruction to `invoke_signed` with the seed list `["data_account", user key]`, and returns what `invoke_signed` returns.

Files:

- `solana.dfy` (module `Solana`): the runtime interface. It holds bytes, `u32`, 32-byte public keys, `AccountInfo`, `AccountMeta`, `Instruction`, `ProgramError` and `Result`. It also holds `next_account_info`, and the `Invocation`/`Dispatch` records that say which cross-program call a dispatcher issued.
- `borsh.dfy` (module `Borsh`): the little-endian codec, defined for any width and used at width four. It also holds `try_from_slice` and `serialize`, with both round-trips.
- `doubleit.dfy` (module `DoubleIt`): the doubling program. It also proves the iteration law: after `n` calls from 0 the count is `2^(n-1)`.
- `doubleit_cpi.dfy` (module `DoubleItCpi`) and `doubleit_pda.dfy` (module `DoubleItPda`): the two dispatchers.

`invoke` and `invoke_signed` are parameters of function type. A dispatcher's contract therefore holds for every behaviour of the runtime's cross-program call. A dispatcher returns `Dispatch(call, result)`: `call` is `None` exactly when it never reached the cross-program call.

None of the three programs re-derives the PDA or fails with `InvalidSeeds`, none creates or funds an account, and none reports `ArithmeticOverflow`. The model follows the code, and raises only `NotEnoughAccountKeys`, `MissingRequiredSignature`, `BorshIoError`, `Unspecified` for the aborted overflow, and whatever error the cross-program call returns.

## Model

| member | source | states |
|---|---|---|
| Solana.NextAccountInfo | doubleit-program/src/lib.rs:21-22 | fails with `NotEnoughAccountKeys` exactly when no account is left; otherwise returns the first account and the rest, which together make up the input |
| Borsh.LeValueOfBytes | doubleit-program/src/lib.rs:29-35 | for any width, the little-endian bytes of a value that fits in that width read back as the value |
| Borsh.BytesOfLeValue | doubleit-program/src/lib.rs:29-35 | a little-endian byte string is fixed by the number it stands for: writing that number back in the same width gives the same bytes |
| Borsh.EncodeU32 | doubleit-program/src/lib.rs:35 | the count is written as exactly four bytes whose little-endian value is the count |
| Borsh.DecodeU32 | doubleit-program/src/lib.rs:29 | decoding inverts the encoder: the u32 read from four bytes encodes back to exactly those bytes |
| Borsh.TryFromSlice | doubleit-program/src/lib.rs:9-12 | `CounterState` decoding succeeds exactly on four bytes and yields their little-endian value; any other length is `BorshIoError` |
| Borsh.SerializeInto | doubleit-program/src/lib.rs:35 | writing the state succeeds exactly when the data holds at least four bytes; it keeps the length and the bytes after the fourth, and the first four hold the count |
| Borsh.DecodeEncode | doubleit-program/src/lib.rs:29-35 | decoding an encoded u32 gives it back |
| Borsh.EncodeDecode | doubleit-program/src/lib.rs:29-35 | four bytes are fixed by their value, so re-encoding a decoded value reproduces the bytes |
| Borsh.SerializeThenDecode | doubleit-program/src/lib.rs:29-35 | the bytes written back to a four-byte account decode to the state that was written |
| Borsh.DecodeThenSerialize | doubleit-program/src/lib.rs:29-35 | writing back an unchanged decoded state leaves the account bytes as they were |
| DoubleIt.Transition | doubleit-program/src/lib.rs:30-34 | the rule succeeds exactly for counts below 2^31, and then maps 0 to 1 and any other count c to 2c, so the result is nonzero and larger than the old count; a count that cannot be doubled fails with `Unspecified` |
| DoubleIt.Process | doubleit-program/src/lib.rs:16-38 | every error leaves all accounts unchanged; the call succeeds exactly when the first account signed, holds four bytes, and its count is below 2^31; on success only the first account's data changes, and it changes from count c to 1 if c = 0 and to 2c otherwise |
| DoubleIt.ErrorOrder | doubleit-program/src/lib.rs:21-33 | the checks run in source order: no accounts gives `NotEnoughAccountKeys`, then an unsigned first account gives `MissingRequiredSignature`, then data that is not four bytes gives `BorshIoError`, then a count of 2^31 or more gives `Unspecified`; each leaves the accounts unchanged |
| DoubleIt.IgnoresProgramIdAndData | doubleit-program/src/lib.rs:16-19 | the outcome does not depend on the program id or the instruction data |
| DoubleIt.CallOnEncodedCount | doubleit-program/src/lib.rs:29-35 | a signed first account holding the bytes of a count c below 2^31 succeeds, and afterwards holds exactly the bytes of 1 if c = 0 and of 2c otherwise; all other accounts are unchanged |
| DoubleIt.ZeroBecomesOne | doubleit-program/src/lib.rs:30-31 | a signed all-zero counter account becomes `[1,0,0,0]`, not 0, and the call succeeds |
| DoubleIt.SuccessKeepsPowerOfTwo | doubleit-program/src/lib.rs:30-34 | after a successful call the count is nonzero, and a power of two stays a power of two |
| DoubleIt.DoublingStep | doubleit-program/src/lib.rs:32-35 | a signed account holding 2^k with k < 31 succeeds and then holds exactly the bytes of 2^(k+1) |
| DoubleIt.RepeatedCallsDouble | doubleit-program-with-cpi-on-pdas/test/index.test.ts:120-123 | from a zero counter, each of n ≤ 32 consecutive calls succeeds, and the account then holds exactly the bytes of 2^(n-1), a power of two; all other accounts are unchanged |
| DoubleIt.FourCallsGiveEight | doubleit-program-with-cpi-on-pdas/test/index.test.ts:136 | four calls on a fresh counter leave `[8,0,0,0]` |
| DoubleItCpi.Process | doubleit-program-with-cpi/src/lib.rs:12-41 | fewer than two accounts gives `NotEnoughAccountKeys` with no call; an unsigned data account gives `MissingRequiredSignature` with no call; `invoke` is called exactly when neither happens, with the second account's key as program id, one signer-and-writable meta for the data account, the data unchanged and only the data account as account info; the result is `invoke`'s result |
| DoubleItCpi.FetchBeforeSignerCheck | doubleit-program-with-cpi/src/lib.rs:19-25 | a single unsigned account is reported as `NotEnoughAccountKeys`, not `MissingRequiredSignature` |
| DoubleItCpi.SucceedsIffInvokeSucceeds | doubleit-program-with-cpi/src/lib.rs:39-40 | the dispatcher succeeds exactly when it calls `invoke` and `invoke` succeeds; every error is one of the two checks' errors or `invoke`'s own error, as it is |
| DoubleItCpi.OnlyFirstTwoAccountsMatter | doubleit-program-with-cpi/src/lib.rs:17-20 | accounts after the second and the dispatcher's own program id change neither the call nor the result |
| DoubleItPda.DataAccountSeedSpellsName | doubleit-program-with-cpi-on-pdas/src/lib.rs:28 | the seed constant is the ASCII spelling of `data_account` |
| DoubleItPda.SameInstructionAsCpi | doubleit-program-with-cpi-on-pdas/src/lib.rs:22-26 | the PDA dispatcher's `AccountMeta::new(pda, true)` instruction is the same instruction the plain CPI dispatcher builds with its struct literal (doubleit-program-with-cpi/src/lib.rs:28-36): same program id, one writable signer meta for the data account, same payload |
| DoubleItPda.Process | doubleit-program-with-cpi-on-pdas/src/lib.rs:12-33 | fewer than three accounts gives `NotEnoughAccountKeys` with no call; otherwise `invoke_signed` is always called, with the third account's key as program id, one signer-and-writable meta for the first account, the data unchanged, only the first account as account info, and the seeds `[["data_account", second key]]`; the result is `invoke_signed`'s result |
| DoubleItPda.NoSignerCheck | doubleit-program-with-cpi-on-pdas/src/lib.rs:17-30 | the signer flags of the user and target accounts change neither the call nor the result |
| DoubleItPda.SeedsDependOnlyOnUserKey | doubleit-program-with-cpi-on-pdas/src/lib.rs:28 | two calls whose second accounts have the same key pass the same seed list, whatever else differs |
| DoubleItPda.SucceedsIffInvokeSignedSucceeds | doubleit-program-with-cpi-on-pdas/src/lib.rs:30-32 | the dispatcher succeeds exactly when it has three accounts and `invoke_signed` succeeds; with three accounts its result is `invoke_signed`'s result, as it is |
| DoubleItPda.OnlyFirstThreeAccountsMatter | doubleit-program-with-cpi-on-pdas/src/lib.rs:17-20 | accounts after the third and the dispatcher's own program id change neither the call nor the result |

## Left out

- DoubleIt.Transition: for a count of 2^31 or more the model fails with `Unspecified`. This is how a build with overflow checks behaves: `count * 2` panics and the call aborts. A build that wraps instead would write the low 32 bits of 2c, that is 2c − 2^32 (`[0,0,0,0]` for 2^31, `[2,0,0,0]` for 2^31 + 1), and return success; that behaviour is not modelled.
- DoubleIt.Process: its promise that an overflowing count leaves the accounts unchanged holds for the overflow-checked build only; a wrapping build would write 2c − 2^32 and succeed.
- DoubleIt.ErrorOrder: its fourth clause (a count of 2^31 or more fails with `Unspecified` and writes nothing) is the overflow-checked build's behaviour, not the wrapping build's.
- DoubleIt.RepeatedCallsDouble: the law is stated for n ≤ 32, because the 33rd call reaches the overflow.
- DoubleIt.Process: each entry of the account list is its own value. When a later entry repeats the first account, the model keeps that entry's old bytes. In the runtime the repeated entry is a clone sharing the same data, so it would show the new count too.
- DoubleIt.CallOnEncodedCount: "all other accounts are unchanged" has the same gap: a later entry repeating the first account is modelled as keeping its old bytes, while the program's clone shares the new data.
- DoubleIt.RepeatedCallsDouble: "all other accounts are unchanged" has the same gap for a later entry repeating the first account.
- The runtime's check after a program returns is left out. It rejects a change to the data of a read-only account or of an account the program does not own. `DoubleIt.Process` writes to the first account without reading `isWritable`, as the program's own code does; whether the runtime then accepts the write is not modelled.
- The runtime behaviour of `invoke` and `invoke_signed` is left out. This covers PDA address derivation (SHA-256 and the off-curve test), signer-privilege checks, ownership checks and running the callee. These are foreign code, modelled as arbitrary functions that return a result. The seed list is not claimed to derive the address the client computes: the client's derivation adds a bump, and this seed list has none.
- The dispatchers are not composed with the doubling program. The callee's effect on account data goes through the runtime, which is left out.
- Account creation, rent exemption, funding and ownership transfer are left out. No program in this repository creates accounts.
- Borsh internals beyond the four-byte little-endian `u32` are left out. A short and a long data slice both give `BorshIoError`, and the I/O error message is not modelled.
- Borsh.SerializeInto: a write into fewer than four bytes is modelled as an error without the bytes it partly wrote. The doubling program cannot reach that case, because decoding already demanded exactly four bytes.
- Lamports, owner and executable flags of accounts, the `RefCell` borrow of the account data, and the `entrypoint!` macro are left out. None of the programs reads them, and the borrow cannot fail in these sequential programs.
- Transaction atomicity, replay protection and concurrent submission are left out. These belong to the ledger, not to these programs. `DoubleIt.Calls` treats each call as its own transaction.
