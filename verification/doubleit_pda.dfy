/** The PDA dispatcher (`doubleit-program-with-cpi-on-pdas`): it takes a
    program-derived data account, a user account and a target program
    account, and forwards its own instruction data to the target program
    through `invoke_signed`, vouching for the data account with the seeds
    `["data_account", user key]`. It checks no signature itself. */
module DoubleItPda {
  import opened Solana
  import DoubleItCpi

  /** The ASCII bytes of `b"data_account"`. */
  const DATA_ACCOUNT_SEED: seq<u8> := [0x64, 0x61, 0x74, 0x61, 0x5F, 0x61, 0x63, 0x63, 0x6F, 0x75, 0x6E, 0x74]

  /** The seed constant spells "data_account" in ASCII. */
  lemma DataAccountSeedSpellsName()
    ensures |DATA_ACCOUNT_SEED| == |"data_account"|
    ensures forall i :: 0 <= i < |DATA_ACCOUNT_SEED| ==> DATA_ACCOUNT_SEED[i] as int == "data_account"[i] as int
  {
  }

  /** The seed list that authorises the program-derived data account: the
      fixed label, then the user's key. No bump byte is appended. */
  function PdaSeeds(user: AccountInfo): (seeds: seq<seq<u8>>)
    ensures |seeds| == 2
    ensures seeds[0] == DATA_ACCOUNT_SEED && seeds[1] == user.key
  {
    [DATA_ACCOUNT_SEED, user.key]
  }

  /** The instruction the dispatcher builds for the target program:
      `AccountMeta::new(pda, true)` makes the data account the one writable
      signer. */
  function ForwardedInstruction(target: AccountInfo, pda: AccountInfo, instructionData: seq<u8>): (ix: Instruction)
    ensures ix.programId == target.key
    ensures |ix.accounts| == 1
    ensures ix.accounts[0].pubkey == pda.key
    ensures ix.accounts[0].isSigner && ix.accounts[0].isWritable
    ensures ix.data == instructionData
  {
    Instruction(target.key, [NewWritableMeta(pda.key, true)], instructionData)
  }

  /** The two dispatchers build the same instruction: `AccountMeta::new(pda,
      true)` here and the struct literal with both flags set in the plain CPI
      dispatcher forward the data account in the same way. */
  lemma SameInstructionAsCpi(target: AccountInfo, dataAccount: AccountInfo, instructionData: seq<u8>)
    ensures ForwardedInstruction(target, dataAccount, instructionData)
            == DoubleItCpi.ForwardedInstruction(target, dataAccount, instructionData)
  {
  }

  /** `process_instruction` of the PDA dispatcher. `invokeSigned` stands for
      the runtime's signed cross-program call, whose behaviour (address
      derivation, privilege checks, the callee itself) is not modelled. */
  function Process(
    programId: Pubkey,
    accounts: seq<AccountInfo>,
    instructionData: seq<u8>,
    invokeSigned: (Instruction, seq<AccountInfo>, seq<seq<seq<u8>>>) -> ProgramResult
  ): (r: Dispatch)
    ensures |accounts| < 3 ==> r == Dispatch(None, Err(NotEnoughAccountKeys))
    ensures r.call.Some? <==> |accounts| >= 3
    ensures r.call.Some? ==>
              && r.call.value.InvokeSigned?
              && r.call.value.instruction.programId == accounts[2].key
              && r.call.value.instruction.accounts == [AccountMeta(accounts[0].key, true, true)]
              && r.call.value.instruction.data == instructionData
              && r.call.value.accountInfos == [accounts[0]]
              && r.call.value.signersSeeds == [[DATA_ACCOUNT_SEED, accounts[1].key]]
    ensures r.call.Some? ==>
              r.result == invokeSigned(r.call.value.instruction, r.call.value.accountInfos, r.call.value.signersSeeds)
  {
    match NextAccountInfo(accounts)
    case Err(e) => Dispatch(None, Err(e))
    case Ok((pda, rest)) =>
      match NextAccountInfo(rest)
      case Err(e) => Dispatch(None, Err(e))
      case Ok((userPubkey, rest')) =>
        match NextAccountInfo(rest')
        case Err(e) => Dispatch(None, Err(e))
        case Ok((doubleContractProgram, _)) =>
          var instruction := ForwardedInstruction(doubleContractProgram, pda, instructionData);
          var infos := [pda];
          var signersSeeds := [PdaSeeds(userPubkey)];
          var call := InvokeSigned(instruction, infos, signersSeeds);
          match invokeSigned(instruction, infos, signersSeeds)
          case Err(e) => Dispatch(Some(call), Err(e))
          case Ok(u) => Dispatch(Some(call), Ok(u))
  }

  /** No signer flag is consulted: changing the signer flag of the user or
      target account (or of any later one) changes neither the call nor the
      result. The data account's own flag only travels along inside the
      account infos handed to `invoke_signed`; that it never blocks the call
      is part of the contract of `Process`. */
  lemma NoSignerCheck(programId: Pubkey, accounts: seq<AccountInfo>, i: nat, isSigner: bool, instructionData: seq<u8>,
                      invokeSigned: (Instruction, seq<AccountInfo>, seq<seq<seq<u8>>>) -> ProgramResult)
    requires 3 <= |accounts| && 0 < i < |accounts|
    ensures Process(programId, accounts[i := accounts[i].(isSigner := isSigner)], instructionData, invokeSigned)
            == Process(programId, accounts, instructionData, invokeSigned)
  {
  }

  /** The signer seeds depend on nothing but the second account's key. */
  lemma SeedsDependOnlyOnUserKey(p1: Pubkey, p2: Pubkey, a1: seq<AccountInfo>, a2: seq<AccountInfo>,
                                 d1: seq<u8>, d2: seq<u8>,
                                 f1: (Instruction, seq<AccountInfo>, seq<seq<seq<u8>>>) -> ProgramResult,
                                 f2: (Instruction, seq<AccountInfo>, seq<seq<seq<u8>>>) -> ProgramResult)
    requires |a1| >= 3 && |a2| >= 3 && a1[1].key == a2[1].key
    ensures Process(p1, a1, d1, f1).call.value.signersSeeds == Process(p2, a2, d2, f2).call.value.signersSeeds
  {
  }

  /** The dispatcher succeeds exactly when it reaches `invoke_signed` and that
      call succeeds; a failing call's error is returned as it is. */
  lemma SucceedsIffInvokeSignedSucceeds(programId: Pubkey, accounts: seq<AccountInfo>, instructionData: seq<u8>,
                                        invokeSigned: (Instruction, seq<AccountInfo>, seq<seq<seq<u8>>>) -> ProgramResult)
    ensures var r := Process(programId, accounts, instructionData, invokeSigned);
            r.result.Ok? <==> |accounts| >= 3 && invokeSigned(r.call.value.instruction, r.call.value.accountInfos, r.call.value.signersSeeds).Ok?
    ensures var r := Process(programId, accounts, instructionData, invokeSigned);
            |accounts| >= 3 ==> r.result == invokeSigned(r.call.value.instruction, r.call.value.accountInfos, r.call.value.signersSeeds)
  {
  }

  /** Accounts after the third and the dispatcher's own program id play no
      part. */
  lemma OnlyFirstThreeAccountsMatter(p1: Pubkey, p2: Pubkey, accounts: seq<AccountInfo>, extra: seq<AccountInfo>,
                                     instructionData: seq<u8>,
                                     invokeSigned: (Instruction, seq<AccountInfo>, seq<seq<seq<u8>>>) -> ProgramResult)
    requires |accounts| >= 3
    ensures Process(p1, accounts + extra, instructionData, invokeSigned) == Process(p2, accounts, instructionData, invokeSigned)
  {
    assert (accounts + extra)[0] == accounts[0] && (accounts + extra)[1] == accounts[1] && (accounts + extra)[2] == accounts[2];
  }
}
