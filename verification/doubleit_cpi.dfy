/** The plain CPI dispatcher (`doubleit-program-with-cpi`): it takes a data
    account and a target program account, insists that the data account
    signed, and forwards its own instruction data to the target program
    through `invoke`, with the data account as the one signer and writable
    account. */
module DoubleItCpi {
  import opened Solana

  /** The instruction the dispatcher builds for the target program. */
  function ForwardedInstruction(target: AccountInfo, dataAccount: AccountInfo, instructionData: seq<u8>): (ix: Instruction)
    ensures ix.programId == target.key
    ensures |ix.accounts| == 1
    ensures ix.accounts[0].pubkey == dataAccount.key
    ensures ix.accounts[0].isSigner && ix.accounts[0].isWritable
    ensures ix.data == instructionData
  {
    Instruction(target.key, [AccountMeta(dataAccount.key, true, true)], instructionData)
  }

  /** `process_instruction` of the CPI dispatcher. `invoke` stands for the
      runtime's cross-program call, whose behaviour is not modelled: it is any
      function from the instruction and account infos to a result. */
  function Process(
    programId: Pubkey,
    accounts: seq<AccountInfo>,
    instructionData: seq<u8>,
    invoke: (Instruction, seq<AccountInfo>) -> ProgramResult
  ): (r: Dispatch)
    ensures |accounts| < 2 ==> r == Dispatch(None, Err(NotEnoughAccountKeys))
    ensures |accounts| >= 2 && !accounts[0].isSigner ==>
              r == Dispatch(None, Err(MissingRequiredSignature))
    ensures r.call.Some? <==> |accounts| >= 2 && accounts[0].isSigner
    ensures r.call.Some? ==>
              && r.call.value.Invoke?
              && r.call.value.instruction.programId == accounts[1].key
              && r.call.value.instruction.accounts == [AccountMeta(accounts[0].key, true, true)]
              && r.call.value.instruction.data == instructionData
              && r.call.value.accountInfos == [accounts[0]]
    ensures r.call.Some? ==>
              r.result == invoke(r.call.value.instruction, r.call.value.accountInfos)
  {
    match NextAccountInfo(accounts)
    case Err(e) => Dispatch(None, Err(e))
    case Ok((dataAccount, rest)) =>
      match NextAccountInfo(rest)
      case Err(e) => Dispatch(None, Err(e))
      case Ok((doubleContract, _)) =>
        if !dataAccount.isSigner then Dispatch(None, Err(MissingRequiredSignature))
        else
          var instruction := ForwardedInstruction(doubleContract, dataAccount, instructionData);
          var infos := [dataAccount];
          match invoke(instruction, infos)
          case Err(e) => Dispatch(Some(Invoke(instruction, infos)), Err(e))
          case Ok(u) => Dispatch(Some(Invoke(instruction, infos)), Ok(u))
  }

  /** The accounts are fetched before the signer check: one unsigned
      account is reported as too few accounts, not as a missing signature. */
  lemma FetchBeforeSignerCheck(programId: Pubkey, account: AccountInfo, instructionData: seq<u8>,
                               invoke: (Instruction, seq<AccountInfo>) -> ProgramResult)
    requires !account.isSigner
    ensures Process(programId, [account], instructionData, invoke).result == Err(NotEnoughAccountKeys)
  {
  }

  /** The dispatcher succeeds exactly when it calls `invoke` and `invoke`
      succeeds; otherwise the error is `invoke`'s own, or one raised before
      the call. */
  lemma SucceedsIffInvokeSucceeds(programId: Pubkey, accounts: seq<AccountInfo>, instructionData: seq<u8>,
                                  invoke: (Instruction, seq<AccountInfo>) -> ProgramResult)
    ensures var r := Process(programId, accounts, instructionData, invoke);
            r.result.Ok? <==> r.call.Some? && invoke(r.call.value.instruction, r.call.value.accountInfos).Ok?
    ensures var r := Process(programId, accounts, instructionData, invoke);
            r.result.Err? ==>
              r.result.error in {NotEnoughAccountKeys, MissingRequiredSignature}
              || (r.call.Some? && r.result == invoke(r.call.value.instruction, r.call.value.accountInfos))
  {
  }

  /** Accounts after the second and the dispatcher's own program id play no
      part. */
  lemma OnlyFirstTwoAccountsMatter(p1: Pubkey, p2: Pubkey, accounts: seq<AccountInfo>, extra: seq<AccountInfo>,
                                   instructionData: seq<u8>, invoke: (Instruction, seq<AccountInfo>) -> ProgramResult)
    requires |accounts| >= 2
    ensures Process(p1, accounts + extra, instructionData, invoke) == Process(p2, accounts, instructionData, invoke)
  {
    assert (accounts + extra)[0] == accounts[0] && (accounts + extra)[1] == accounts[1];
  }
}
