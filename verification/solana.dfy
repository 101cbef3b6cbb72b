/** The part of the Solana program runtime that the three double-it programs
    touch: public keys, account views, instructions, program errors and the
    account iterator `next_account_info`. */
module Solana {

  /** An unsigned byte. */
  newtype u8 = x: int | 0 <= x < 0x100

  /** An unsigned 32-bit integer; arithmetic on it must stay in range, so
      any overflow has to be handled explicitly by the caller. */
  newtype u32 = x: int | 0 <= x < 0x1_0000_0000

  const U32_MAX: int := 0xFFFF_FFFF

  /** A 32-byte public key. */
  type Pubkey = k: seq<u8> | |k| == 32 witness seq(32, _ => 0)

  /** The view a program gets of one account: its key, the two privilege
      flags from the transaction, and its data bytes. Lamports, owner and
      the executable flag are not read by any of the modelled programs. */
  datatype AccountInfo = AccountInfo(
    key: Pubkey,
    isSigner: bool,
    isWritable: bool,
    data: seq<u8>)

  /** One account reference inside an instruction. */
  datatype AccountMeta = AccountMeta(pubkey: Pubkey, isSigner: bool, isWritable: bool)

  /** `AccountMeta::new(pubkey, is_signer)`: a writable reference. */
  function NewWritableMeta(pubkey: Pubkey, isSigner: bool): (m: AccountMeta)
    ensures m.pubkey == pubkey && m.isSigner == isSigner && m.isWritable
  {
    AccountMeta(pubkey, isSigner, true)
  }

  /** An instruction: target program, ordered account references, payload. */
  datatype Instruction = Instruction(programId: Pubkey, accounts: seq<AccountMeta>, data: seq<u8>)

  /** The program errors the modelled programs can raise. `Unspecified`
      stands for the aborted call of an overflow-checked build when the
      doubling rule overflows a u32 (the panic is not a `ProgramError` of
      its own); `Custom` stands for any other error a callee returns, with
      the remaining real `ProgramError` variants folded into it. */
  datatype ProgramError =
    | NotEnoughAccountKeys
    | MissingRequiredSignature
    | BorshIoError
    | Unspecified
    | Custom(code: u32)

  datatype Option<+T> = None | Some(value: T)

  /** `Result<T, ProgramError>`. */
  datatype Result<+T> = Ok(value: T) | Err(error: ProgramError)

  /** `ProgramResult`. */
  type ProgramResult = Result<()>

  /** `next_account_info`: take the next account of the iterator, or fail
      with `NotEnoughAccountKeys` when it is exhausted. */
  function NextAccountInfo(iter: seq<AccountInfo>): (r: Result<(AccountInfo, seq<AccountInfo>)>)
    ensures r.Err? <==> iter == []
    ensures r.Err? ==> r.error == NotEnoughAccountKeys
    ensures r.Ok? ==> [r.value.0] + r.value.1 == iter
  {
    if iter == [] then Err(NotEnoughAccountKeys) else Ok((iter[0], iter[1..]))
  }

  /** A cross-program call as the calling program issues it: `invoke` with
      an instruction and the account infos it hands over, or
      `invoke_signed`, which also carries seed lists for program-derived
      signers. What the runtime does with the call is not modelled. */
  datatype Invocation =
    | Invoke(instruction: Instruction, accountInfos: seq<AccountInfo>)
    | InvokeSigned(instruction: Instruction, accountInfos: seq<AccountInfo>, signersSeeds: seq<seq<seq<u8>>>)

  /** What a dispatching program does: the cross-program call it issues, if
      it gets that far, and the result it returns. */
  datatype Dispatch = Dispatch(call: Option<Invocation>, result: ProgramResult)
}
