# Token-sale ledger on Solana: a verified Dafny model

This project models the on-chain token-sale (ICO) program in `src/lib.rs`. The program keeps one persisted record, `ICOAccount`, which holds:

- the total supply and the admin's key;
- a list of `(Pubkey, u64)` balances;
- the pre-sale and public-sale prices, limits and window times;
- the proceeds (`total_price_earned`);
- a pre-sale roster whose entries carry a whitelist flag, and a public-sale roster.

One instruction runs per call. `process_instruction` checks that the program owns the ledger account and loads the record. It then dispatches on the first instruction byte:

- `0`: initialize;
- `1`: mint;
- `2`: pre-sale purchase;
- `3`: public-sale purchase;
- `4`: whitelist toggle.

The record is written back only when the instruction succeeds (src/lib.rs:92). Opcode `0` returns `Ok` unless writing the record back fails, because the result of initialization is ignored. Failures of that write are not modelled (see "Left out").

The model has two layers, plus the lemmas:

- **Pure layer** (`IcoSpec`, on the `IcoState` record). One function per operation returns the operation's result and the record as the operation leaves it in memory. This includes the changes made before a later check fails, for example the roster credit of a purchase whose buyer has no balance entry. `InstructionStep` is the entry point. It keeps the stored record unless the result is `Ok`.
- **Imperative layer** (`Ico.IcoAccount`, `Program.ProcessInstruction`). A class with the record's fields and methods that change them in place, with loops where the source loops:
  - the `find` over balances;
  - the whitelist search with its flag;
  - the roster credit loops;
  - the toggle loop.

  Each method is proved to return, and to leave the object in, exactly what the matching `IcoSpec` function gives.
- **Lemmas** (`IcoProperties`, `Balances`, `Rosters`). What the operations guarantee:
  - find-or-insert minting;
  - unique balance keys;
  - zero-sum purchases with exact proceeds;
  - the order of the purchase checks;
  - the whitelist toggle as an involution;
  - an unchanged stored record after any failure.

Modelling choices:

- `Pubkey` is an opaque type with equality.
- Every `u64` is a natural number.
- The clock, the buyer's data and lamports, and the instruction's accounts are inputs.

Behaviour of the code that the model keeps, including its surprises:

- **Error names.** Errors are the code's `ProgramError` variants:
  - a wrong caller at initialization, a missing or non-whitelisted roster entry, a payment mismatch and a missing balance entry all give `InvalidAccountData`;
  - a closed time window gives `InvalidInstructionData`.
- **The purchase buyer.** Both purchases take their buyer from a fresh iterator over the accounts, so the buyer is the ledger account itself (`accounts[0]`). Its data supplies the amount and its lamports are the payment.
- **Initialization.** Its result is ignored: opcode `0` returns `Ok` unless writing the record back fails. Re-initialization appends another admin entry instead of overwriting, which breaks key uniqueness when the admin already holds one (`InstructionKeepsKeysUnique`).
- **Minting.** Minting has no authorization check and raises the sum of balances above `total_supply` (`MintBreaksConservation`).
- **Time checks.** The pre-sale accepts `now <= sale_start_time`, so at `now == sale_start_time` both phases are open. The public sale never compares `now` with `sale_end_time` (`SaleIgnoresEndTime`).
- **Roster entries.** No operation creates a roster entry. A pre-sale buyer must already be on the roster; the public sale credits roster entries only if some exist.

## Model

| member | source | states |
|---|---|---|
| `IcoTypes.PreSaleAccount.Whitelist` | src/lib.rs:45-47 | the whitelist flag is negated and every other field of the entry is kept |
| `LeBytes.FromLe` | src/lib.rs:76 | a little-endian byte string denotes a value below 256^length |
| `LeBytes.DecodeU64` | src/lib.rs:75-76 | `u64::from_le_bytes` of 8 bytes is below 2^64 and re-encodes to the same 8 bytes |
| `LeBytes.FromLeToLe` | src/lib.rs:76 | decoding the n-byte little-endian encoding of any value below 256^n gives that value back |
| `LeBytes.ToLeFromLe` | src/lib.rs:76 | encoding a decoded byte string at its own width gives the bytes back |
| `Balances.IndexOf` | src/lib.rs:128-131 | the lookup finds the first entry held by the key, and finds none exactly when no entry is held by it |
| `Balances.Find` | src/lib.rs:128-131 | the linear search returns exactly the first matching position, or none |
| `Balances.CreditFacts` | src/lib.rs:128-136 | mint's find-or-insert raises the holder's balance by the amount and leaves everyone else's; the sum grows by the amount; the list grows only for a new holder; unique keys stay unique |
| `Balances.SumAddAt` | src/lib.rs:197 | adding to one entry adds the same amount to the sum of balances |
| `Balances.SumSubAt` | src/lib.rs:207 | taking from one entry takes the same amount from the sum of balances |
| `Balances.SumAppend` | src/lib.rs:136 | appending an entry adds its amount to the sum of balances |
| `Balances.UniqueAppend` | src/lib.rs:117-119 | an appended entry keeps keys unique if and only if they were unique and its key was absent |
| `Balances.IndexOfSameKeys` | src/lib.rs:192-205 | changing amounts never changes which entry a later lookup finds |
| `Balances.TransferFacts` | src/lib.rs:192-210 | crediting the buyer's entry then debiting the admin's leaves the sum of balances and every key unchanged |
| `Balances.TransferBalances` | src/lib.rs:192-210 | that credit and debit raise the buyer's balance by the amount and lower the admin's by it (no change when they are the same holder), and leave every other holder's balance unchanged |
| `Rosters.PreSaleIndexOf` | src/lib.rs:145-146 | the roster scan finds the first entry of the address, and none exactly when the address has no entry |
| `Rosters.FindWhitelisted` | src/lib.rs:163-170 | the flag loop answers true exactly when some entry of the buyer has its whitelist flag set |
| `Rosters.ToggleFacts` | src/lib.rs:141-152 | the toggle fails exactly when the address has no entry; otherwise it flips only the flag of the first entry of that address and leaves every other entry alone |
| `Rosters.ToggleInvolution` | src/lib.rs:141-152 | toggling the same address twice restores the roster |
| `Rosters.CreditPreSaleFacts` | src/lib.rs:184-188 | the pre-sale credit keeps the roster's length, adds the amount to every entry of the buyer, changes nothing else, and keeps who is whitelisted |
| `Rosters.CreditSaleFacts` | src/lib.rs:237-241 | the sale credit keeps the roster's length, adds the amount to every entry of the buyer and changes nothing else |
| `Balances.Credit` | src/lib.rs:128-136 | the find-or-insert leaves the key with an entry and grows the list by at most one; `Balances.CreditFacts` states its full meaning |
| `Rosters.Toggle` | src/lib.rs:145-151 | fails exactly when the address has no entry, and keeps the roster's length; `Rosters.ToggleFacts` and `Rosters.ToggleInvolution` state its full meaning |
| `Rosters.CreditPreSale` | src/lib.rs:184-188 | keeps the roster's length and every entry's address; `Rosters.CreditPreSaleFacts` states its full meaning |
| `Rosters.CreditSale` | src/lib.rs:237-241 | keeps the roster's length and every entry's address; `Rosters.CreditSaleFacts` states its full meaning |
| `IcoSpec.InitializeStep` | src/lib.rs:97-121 | succeeds exactly when the next account is the program's own key, and fails with the record unchanged; `IcoProperties.InitializeOutcomes` and `IcoProperties.InitializeBalances` state its full meaning |
| `IcoSpec.MintStep` | src/lib.rs:123-139 | never fails, changes only the balances and leaves the recipient with an entry; `IcoProperties.MintFacts` states its full meaning |
| `IcoSpec.WhitelistStep` | src/lib.rs:141-152 | fails exactly when the address has no roster entry, then with the record unchanged, and changes only the pre-sale roster; `IcoProperties.WhitelistFacts` and `IcoProperties.WhitelistInvolution` state its full meaning |
| `IcoSpec.Settle` | src/lib.rs:192-212 | keeps the balance list's length and adds the cost to the proceeds exactly when it succeeds; `IcoProperties.SettleOutcome` and `IcoProperties.SettleMovesTokens` state its full meaning |
| `IcoSpec.PreSaleStep` | src/lib.rs:154-215 | a failed time, whitelist or payment check gives an error with the record unchanged and nothing taken; once the checks pass the payment is taken whatever the settlement does; `IcoProperties.PreSaleRejections` and `IcoProperties.PreSaleSuccess` state its full meaning |
| `IcoSpec.SaleStep` | src/lib.rs:217-268 | a failed window or payment check gives an error with the record unchanged and nothing taken; once the checks pass the payment is taken whatever the settlement does; `IcoProperties.SaleWindowRejects`, `IcoProperties.SaleIgnoresEndTime` and `IcoProperties.SaleSuccess` state its full meaning |
| `IcoSpec.Commit` | src/lib.rs:77-92 | keeps the operation's result, stores the new record only on success, and reports nothing taken on failure (the runtime discarding a failed instruction's changes) |
| `IcoSpec.InstructionStep` | src/lib.rs:52-95 | a missing or foreign-owned ledger account fails with the record unchanged, and opcode 0 returns `Ok` (record write-back failures are not modelled); `IcoProperties.InstructionFailureKeepsStore` states the failure half and `IcoProperties.InstructionSuccessStores` the success half of its meaning |
| `Ico.IcoAccount.Load` | src/lib.rs:67 | the working object holds exactly the stored record |
| `Ico.IcoAccount.InitializeIco` | src/lib.rs:97-121 | result and new fields are those of `InitializeStep` on the old record |
| `Ico.IcoAccount.MintTokens` | src/lib.rs:123-139 | result and new fields are those of `MintStep` on the old record |
| `Ico.IcoAccount.WhitelistAccount` | src/lib.rs:141-152 | result and new fields are those of `WhitelistStep` on the old record |
| `Ico.IcoAccount.PreSale` | src/lib.rs:154-215 | result, lamports taken and new fields are those of `PreSaleStep` on the old record, with the amount decoded from the buyer's first 8 data bytes |
| `Ico.IcoAccount.Sale` | src/lib.rs:217-268 | result, lamports taken and new fields are those of `SaleStep` on the old record, with the amount decoded from the buyer's first 8 data bytes |
| `Ico.IcoAccount.SettlePurchase` | src/lib.rs:192-212 | result and new fields are those of `Settle`: credit the buyer, debit the admin, add the cost to the proceeds |
| `Program.ProcessInstruction` | src/lib.rs:52-95 | result, lamports taken and the stored record afterwards are those of `InstructionStep` on the stored record before |
| `IcoProperties.InitializeOutcomes` | src/lib.rs:102-120 | the program's own key gets the fixed configuration (supply 10000, prices 100 and 200, limits 50 and 100, times 0 and 100) and exactly `(admin, 10000)` appended; another key gives `InvalidAccountData` and no account gives `NotEnoughAccountKeys`, with the record unchanged |
| `IcoProperties.InitializeBalances` | src/lib.rs:117-119 | initialization adds 10000 to the sum of balances; keys stay unique if and only if the admin held no entry; from an empty list the record is conserved with the admin as sole holder |
| `IcoProperties.MintFacts` | src/lib.rs:123-139 | minting never fails; an existing entry grows by the amount with the length unchanged, else exactly `(recipient, amount)` is appended; other holders, supply, rosters and proceeds are unchanged; unique keys stay unique |
| `IcoProperties.MintBreaksConservation` | src/lib.rs:133-136 | minting a positive amount into a conserved record leaves the balances summing to more than the supply |
| `IcoProperties.WhitelistFacts` | src/lib.rs:141-152 | the toggle errs with the record unchanged exactly when the address has no roster entry; otherwise only the first entry's flag flips |
| `IcoProperties.WhitelistInvolution` | src/lib.rs:45-47 | applying the toggle twice restores the record, on success and on failure |
| `IcoProperties.SettleOutcome` | src/lib.rs:192-212 | settlement succeeds exactly when buyer and admin both have balance entries; failure changes at most the balances; success adds exactly the cost to the proceeds |
| `IcoProperties.SettleMovesTokens` | src/lib.rs:192-210 | a successful settlement moves the amount from the admin to the buyer with the sum and the keys unchanged and no other holder touched |
| `IcoProperties.PreSaleRejections` | src/lib.rs:159-182 | checks in order: a time after the sale start gives `InvalidInstructionData`; then a buyer without a whitelisted entry, then any payment other than exactly `amount * price`, give `InvalidAccountData`; each leaves the record untouched and takes nothing |
| `IcoProperties.PreSaleSuccess` | src/lib.rs:184-212 | a pre-sale succeeds exactly when its checks pass and buyer and admin have entries; then it is zero-sum between buyer and admin, adds exactly `amount * price` (the lamports taken) to the proceeds, credits every roster entry of the buyer, appends none, and keeps keys unique |
| `IcoProperties.SaleWindowRejects` | src/lib.rs:223-227 | before the start, or with a start not before the end, the sale fails with `InvalidInstructionData` whatever the buyer and payment |
| `IcoProperties.SaleIgnoresEndTime` | src/lib.rs:221-227 | once the sale has started, the clock's value no longer affects the purchase: the end time is never checked |
| `IcoProperties.SaleSuccess` | src/lib.rs:229-265 | a sale succeeds exactly when the window and payment checks pass and buyer and admin have entries; then it is zero-sum, adds exactly `amount * price` to the proceeds, credits every sale roster entry of the buyer and appends none |
| `IcoProperties.InstructionWrongOwner` | src/lib.rs:62-65 | a ledger account owned by another program gives `IncorrectProgramId` with the record unchanged |
| `IcoProperties.InstructionBadOpcode` | src/lib.rs:89 | an opcode above 4 gives `InvalidInstructionData` with the record unchanged |
| `IcoProperties.InstructionFailureKeepsStore` | src/lib.rs:77-92 | any failing instruction leaves the stored record unchanged and reports no lamports taken. The program itself never returns a debit made before a later failure (src/lib.rs:190 before :199 and :209; :243 before :252 and :262); `IcoSpec.Commit` models the runtime discarding a failed instruction's changes, that debit included |
| `IcoProperties.InstructionSuccessStores` | src/lib.rs:69-94 | a successful instruction stores the record that its opcode's operation left: initialization with the next account as admin (opcode 0); a mint of the decoded amount to the next account (1); a pre-sale (2) or sale (3) by the ledger's own account, which then takes exactly that account's lamports; a toggle of the next account (4). Nothing else succeeds, and only purchases take lamports |
| `IcoProperties.InstructionInitializeIgnoresResult` | src/lib.rs:70-72 | opcode 0 returns `Ok` unless writing the record back fails, which is not modelled; with a missing or foreign admin account the record is stored unchanged |
| `IcoProperties.InstructionDiscardsPartialPreSale` | src/lib.rs:184-199 | a pre-sale that credits the roster and then finds no buyer balance entry fails with the in-memory roster changed, yet the stored record is unchanged |
| `IcoProperties.InstructionKeepsKeysUnique` | src/lib.rs:69-92 | from unique balance keys, an instruction keeps them unique if and only if it is not an initialization whose admin already holds an entry |
| `IcoProperties.InstructionSupply` | src/lib.rs:69-92 | purchases and toggles keep the sum of balances and the supply, so a conserved record stays conserved; a successful mint adds its decoded amount to the sum |

## Left out

- Borsh decoding and encoding of `ICOAccount` (src/lib.rs:67, 92) is taken as the identity on the record. Its failures are not modelled.
- Solana runtime plumbing (`entrypoint!`, `msg!`, `RefCell` borrows) is not modelled. Accounts are plain values (`AccountInfo`), and a missing account gives `NotEnoughAccountKeys`.
- `Clock::get` (src/lib.rs:157, 221) becomes the input `now`: the timestamp after its cast to `u64`. A failing clock read is not modelled.
- The lamport debit (src/lib.rs:190, 243) becomes the `debited` output. A failure to borrow the lamports is not modelled.
- The runtime's discarding of a failed instruction's account changes is modelled only by `IcoSpec.Commit`: the stored record is kept and the lamport debit the operation already made is reported as 0 (`IcoSpec.PreSaleStep` and `IcoSpec.SaleStep` still report that debit). The runtime's check that lamports balance across the transaction is not modelled.
- `u64` wrap-around or overflow panics at src/lib.rs:133, 178, 186, 197, 212, 231, 239, 250 and 265 are not modelled. Whether they wrap or panic depends on the build profile. All counters are unbounded naturals.
- The `u64` subtraction from the admin's balance (src/lib.rs:207, 260) is a precondition (`IcoSpec.AdminCovers`): when reached, that entry must hold at least the amount.
- Out-of-range slicing panics (src/lib.rs:69, 75, 176, 229) are preconditions (`IcoSpec.CallDefined`).
- `pre_sale_limit` and `sale_limit` are stored but never checked, in the source and in the model.
- Ico.IcoAccount.PreSale: requires 8 bytes of buyer data even on paths that reject before reading them. The buyer's data is the stored record, which is always longer.
- Ico.IcoAccount.Sale: requires 8 bytes of buyer data even when the window check rejects first, for the same reason.
- IcoSpec.CallDefined: requires 8 bytes of the ledger account's data on every opcode 2 or 3 call, including calls rejected before the slices at src/lib.rs:176 and :229, for the same reason.
