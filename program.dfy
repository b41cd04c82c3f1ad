/**
 * The program's entry point: check the ledger account's owner, load the
 * stored record into a working object, run the operation the opcode selects,
 * and write the working object back only when the operation succeeded.
 */
module Program {
  import opened IcoTypes
  import opened IcoSpec
  import opened Ico
  import LeBytes

  /** The data slot of the ledger's account, holding the stored record. */
  class Store {
    var stored: IcoState

    constructor (s: IcoState)
      ensures stored == s
    {
      stored := s;
    }
  }

  /**
   * `process_instruction`. `accounts[0]` is the ledger's account and `store`
   * its data; `now` is the clock's reading. `debited` is what a successful
   * purchase took from the lamports of `accounts[0]`.
   */
  method ProcessInstruction(programId: Pubkey, accounts: seq<AccountInfo>, data: seq<bv8>,
                            now: nat, store: Store)
    returns (r: Outcome, debited: nat)
    requires CallDefined(store.stored, programId, accounts, data, now)
    modifies store
    ensures Invocation(r, store.stored, debited)
      == InstructionStep(old(store.stored), programId, accounts, data, now)
  {
    if |accounts| == 0 {
      return Err(NotEnoughAccountKeys), 0;
    }
    var icoAccount := accounts[0];
    if icoAccount.owner != programId {
      return Err(IncorrectProgramId), 0;
    }
    var icoState := new IcoAccount.Load(store.stored);
    debited := 0;
    match data[0] {
      case 0 =>
        var next := if |accounts| >= 2 then Some(accounts[1].key) else None;
        var _ := icoState.InitializeIco(programId, next);
      case 1 =>
        if |accounts| < 2 {
          return Err(NotEnoughAccountKeys), 0;
        }
        var amount := LeBytes.DecodeU64(data[1..9]);
        // Minting never fails, so its `?` never returns early.
        r := icoState.MintTokens(accounts[1].key, amount);
      case 2 =>
        // The purchase walks `accounts` from the start again, so its buyer is
        // the ledger's own account.
        r, debited := icoState.PreSale(icoAccount.key, now, icoAccount.data, icoAccount.lamports);
        if r.Err? {
          return r, 0;
        }
      case 3 =>
        r, debited := icoState.Sale(icoAccount.key, now, icoAccount.data, icoAccount.lamports);
        if r.Err? {
          return r, 0;
        }
      case 4 =>
        if |accounts| < 2 {
          return Err(NotEnoughAccountKeys), 0;
        }
        r := icoState.WhitelistAccount(accounts[1].key);
        if r.Err? {
          return r, 0;
        }
      case _ =>
        return Err(InvalidInstructionData), 0;
    }
    store.stored := icoState.State();
    return Ok, debited;
  }
}
