/**
 * The records of the token-sale ledger and the error values its operations
 * return. Token amounts, prices, times and proceeds are the source's `u64`
 * fields, modelled as unbounded naturals.
 */
module IcoTypes {

  /** An account address; only equality is observable. */
  type Pubkey(==)

  datatype Option<T> = None | Some(value: T)

  /** The `ProgramError` variants the ledger can return. */
  datatype ProgramError =
    | IncorrectProgramId
    | InvalidAccountData
    | InvalidInstructionData
    | NotEnoughAccountKeys

  /** `ProgramResult`: success, or the error that aborted the call. */
  datatype Outcome = Ok | Err(error: ProgramError)

  /** One entry of the balance list: a holder and its token count. */
  type Entry = (Pubkey, nat)

  /** A roster entry of the whitelisted pre-sale. */
  datatype PreSaleAccount = PreSaleAccount(
    address: Pubkey,
    tokenAmount: nat,
    tokenPrice: nat,
    whitelistAccount: bool)
  {
    /** Flips the whitelist flag and leaves every other field as it was. */
    function Whitelist(): (r: PreSaleAccount)
      ensures r.whitelistAccount == !whitelistAccount
      ensures r.(whitelistAccount := whitelistAccount) == this
    {
      this.(whitelistAccount := !whitelistAccount)
    }

    /** The entry after a purchase of `amount` tokens by `buyer`. */
    function Credited(buyer: Pubkey, amount: nat): PreSaleAccount {
      if address == buyer then this.(tokenAmount := tokenAmount + amount) else this
    }
  }

  /** A roster entry of the public sale. */
  datatype SaleAccount = SaleAccount(
    address: Pubkey,
    tokenAmount: nat,
    tokenPrice: nat)
  {
    /** The entry after a purchase of `amount` tokens by `buyer`. */
    function Credited(buyer: Pubkey, amount: nat): SaleAccount {
      if address == buyer then this.(tokenAmount := tokenAmount + amount) else this
    }
  }

  /** The whole persisted ledger record (`ICOAccount`). */
  datatype IcoState = IcoState(
    totalSupply: nat,
    admin: Pubkey,
    balance: seq<Entry>,
    preSalePrice: nat,
    preSaleLimit: nat,
    salePrice: nat,
    saleLimit: nat,
    saleStartTime: nat,
    saleEndTime: nat,
    totalPriceEarned: nat,
    preSaleAccount: seq<PreSaleAccount>,
    saleAccount: seq<SaleAccount>)

  /** What one operation leaves behind: its result and the in-memory record. */
  datatype Step = Step(outcome: Outcome, state: IcoState)

  /** A purchase also reports the lamports it took from the buyer's account. */
  datatype Purchase = Purchase(step: Step, debited: nat)

  /**
   * What the runtime passes for one account of an instruction: its address,
   * the program that owns it, its lamports and its raw data.
   */
  datatype AccountInfo = AccountInfo(key: Pubkey, owner: Pubkey, lamports: nat, data: seq<bv8>)

  /**
   * What one instruction leaves behind: its result, the record as stored
   * afterwards, and the lamports a successful purchase took from the buyer.
   */
  datatype Invocation = Invocation(outcome: Outcome, stored: IcoState, debited: nat)

  /** The values `intialize_ico` writes. */
  const INITIAL_SUPPLY: nat := 10000
  const PRE_SALE_PRICE: nat := 100
  const PRE_SALE_LIMIT: nat := 50
  const SALE_PRICE: nat := 200
  const SALE_LIMIT: nat := 100
  const SALE_START_TIME: nat := 0
  const SALE_END_TIME: nat := 100
}
