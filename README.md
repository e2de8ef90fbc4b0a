# Account-state and token-metadata readers, in Dafny

This project models the two readers in `src/api/ethereum.ts` of the exchange
front end.

- `fetchAccountState(address, assets)` drops the native-currency sentinel
  `ETH_KEY` from the asset list. For each remaining token it appends a
  `balanceOf(address)` call and an `allowance(address, exchangeProxy)` call to
  the plan. It then appends one ether-balance call and one `proxies(address)`
  call on the proxy registry. The plan goes to a multicall aggregator in one
  round trip. The answers are decoded at stride 2 into `balances`,
  `allowances[exchangeProxy]`, `balances.ether` and `proxy`.
- `fetchTokenMetadata(assets)` appends `name()`, `symbol()` and `decimals()`
  for each token. It decodes the answers at stride 3 into a map from token to a
  metadata record. Each record also carries the token's own address and a logo
  link derived from it.

Everything is in one module, `Ethereum` (`ethereum.dfy`):

- A `Call` datatype lists the seven kinds of read in a plan.
- `AccountState` and `TokenMetadata` are the decoded results.
- Each reader is split into a build step and a decode step.
  - `BuildAccountCalls` and `BuildMetadataCalls` append to a `seq<Call>` in a
    loop, as the source pushes onto `calls`.
  - `DecodeAccountState` and `DecodeTokenMetadata` write into local maps in a
    loop, as the source writes into `balances`, `allowances[...]` and
    `metadata`.
  - Each of these methods is proved equal to a specification function:
    `AccountCalls`, `DecodeAccount`, `MetadataCalls` or `DecodeMetadata`.
  - `FetchAccountState` and `FetchTokenMetadata` put the steps together.
- The aggregator's `all(calls)` is the parameter
  `all: seq<Call> -> Option<seq<V>>`.
  - `None` stands for a rejected batch. The fetch methods then return `None`:
    there is no partial result.
  - `AnswersEveryCall(all)` states the aggregator's promise: when it answers,
    it returns one result per call.
- Answer values have an opaque type `V`.
  - The big-number `.toString()` is the parameter `toStr`.
  - `getTrustwalletLink` is the parameter `link`.
  - `ETH_KEY` is the parameter `ethKey`.
  - `config.addresses.exchangeProxy` and `config.addresses.dsProxyRegistry` form
    a `Config` value.
  - The literal `"ether"` balance key is the constant `Ether`.
- Every `data[...]` read in the decoders is an index expression that Dafny
  proves in bounds, given that the answer list is as long as the plan. That is
  where the in-bounds guarantee comes from.
  - Beside each read, the decoders append the slot index to a ghost list
    `read`.
  - They prove that this list is `0, 1, ..., |data|-1`. So the loops, as
    written, read every answer once, in increasing order, and skip none.
  - Nothing mechanically links the list to the reads: it is kept up to date
    next to them by hand.
- Duplicate assets are allowed, as in the source. A map entry comes from the
  token's last occurrence. The predicate `LastOccurrence(s, i)` says that
  `s[i]` does not occur again after position `i`.

Two details of the code are kept as written:

- With an empty asset list, `allowances` still holds the key `exchangeProxy`,
  mapped to an empty map (lines 49-50).
- `proxy` is the raw answer `data[2N+1]`, not passed through `.toString()`
  (line 59).

Because every operation is a function of its inputs, calling a reader twice
with the same inputs and the same aggregator gives the same result.

## Model

| member | source | states |
|---|---|---|
| `Ethereum.WithoutNative` | src/api/ethereum.ts:22 | an asset is in the filtered list iff it is in the input and is not the sentinel; the list is never longer than the input |
| `Ethereum.WithoutNativeAppend` | src/api/ethereum.ts:22 | filtering a concatenation is the concatenation of the filtered parts, so the kept assets stay in their original relative order |
| `Ethereum.WithoutNativeCounts` | src/api/ethereum.ts:22 | every asset other than the sentinel is kept as many times as it occurs; the sentinel is kept zero times |
| `Ethereum.WithoutNativeIdentity` | src/api/ethereum.ts:22 | a list that does not contain the sentinel is returned unchanged |
| `Ethereum.Tabulate` | src/api/ethereum.ts:53-57 | writing one entry per key in order into an empty map gives exactly the listed keys as the key set |
| `Ethereum.TabulateLastWins` | src/api/ethereum.ts:53-57 | the entry under a key is the value written at that key's last occurrence (last write wins) |
| `Ethereum.TabulateWritten` | src/api/ethereum.ts:80-92 | every entry in the map is a value that was written under that same key |
| `Ethereum.TokenCalls` | src/api/ethereum.ts:28-34 | the token part of the plan has two calls per token, 2N in all |
| `Ethereum.TokenCallsLayout` | src/api/ethereum.ts:28-34 | slot 2i of the token part is `balanceOf(owner)` on token i and slot 2i+1 is `allowance(owner, spender)` on token i, in the push order |
| `Ethereum.AccountCalls` | src/api/ethereum.ts:25-45 | the account plan has 2N+2 calls; the ether balance of the owner is at slot 2N and `proxies(owner)` on the registry at slot 2N+1 |
| `Ethereum.AccountCallsLayout` | src/api/ethereum.ts:28-34 | in the full account plan, slots 2i and 2i+1 still hold token i's balanceOf and allowance calls |
| `Ethereum.BuildAccountCalls` | src/api/ethereum.ts:25-45 | the push loop builds exactly the plan `AccountCalls` |
| `Ethereum.DecodeAccountShape` | src/api/ethereum.ts:48-60 | `allowances` has the single outer key `exchangeProxy`; its inner keys are exactly the tokens; `balances` keys are exactly the tokens plus `"ether"`; each token's allowance comes from slot 2i+1 and its balance from slot 2i, taken at the token's last occurrence; `balances["ether"]` is slot 2N and overrides a token keyed `"ether"`; `proxy` is slot 2N+1 |
| `Ethereum.DecodeAccountState` | src/api/ethereum.ts:48-60 | the stride-2 decode loop gives exactly `DecodeAccount`; the ghost log of the slots read is 0, 1, ..., 2N+1 in order |
| `Ethereum.FetchAccountState` | src/api/ethereum.ts:21-61 | a rejected batch gives no state; otherwise the state is the decode of the aggregator's answers to the plan built from the filtered assets |
| `Ethereum.AccountSlotsMatchCalls` | src/api/ethereum.ts:28-59 | every slot k of the answers is decoded as the answer to call k of the plan: balanceOf into `balances`, allowance into `allowances[spender]` (each unless a later identical call overrides it), the ether balance into `balances["ether"]`, the proxies call into `proxy`; the plan holds no other kind of call |
| `Ethereum.TokenSlotsMatchCalls` | src/api/ethereum.ts:52-57 | token i is a key of both maps; slot 2i fills its balance and slot 2i+1 its allowance, unless a later identical call overrides them |
| `Ethereum.AccountLastCallIsLastToken` | src/api/ethereum.ts:28-34 | if no later call in the plan repeats the balance or allowance call of token i, then token i does not occur again later in the list |
| `Ethereum.EmptyAccountPlan` | src/api/ethereum.ts:36-59 | with no tokens the plan is the ether-balance call and the proxy call alone; the state holds an empty allowance map under `exchangeProxy`, only the `"ether"` balance, and the proxy |
| `Ethereum.OneTokenAndEtherExample` | src/api/ethereum.ts:21-60 | for account 0xA1 with assets [0xT1, "ether"] and exchange proxy 0xEP: one token remains after the filter; the four calls are in the expected order; the decoded balances, allowances and proxy are the expected ones |
| `Ethereum.MetadataCalls` | src/api/ethereum.ts:66-76 | the metadata plan has three calls per token, 3N in all |
| `Ethereum.MetadataCallsLayout` | src/api/ethereum.ts:68-76 | slots 3i, 3i+1 and 3i+2 of the metadata plan are `name()`, `symbol()` and `decimals()` on token i, in the push order |
| `Ethereum.BuildMetadataCalls` | src/api/ethereum.ts:66-76 | the push loop builds exactly the plan `MetadataCalls` |
| `Ethereum.DecodeMetadataShape` | src/api/ethereum.ts:79-93 | the map's keys are exactly the tokens; every record's address is its key and its logo URL is the link of that key; each token's record holds slots 3i, 3i+1 and 3i+2, taken at its last occurrence |
| `Ethereum.DecodeTokenMetadata` | src/api/ethereum.ts:79-93 | the stride-3 decode loop gives exactly `DecodeMetadata`; the ghost log of the slots read is 0, 1, ..., 3N-1 in order |
| `Ethereum.FetchTokenMetadata` | src/api/ethereum.ts:63-94 | a rejected batch gives no metadata; otherwise the metadata is the decode of the aggregator's answers to the metadata plan |
| `Ethereum.MetadataSlotsMatchCalls` | src/api/ethereum.ts:68-93 | for any plan with the metadata layout, every slot k is decoded into the field (name, symbol or decimals) that call k asks for, in the record of the token that call k names, unless a later identical call overrides it; the plan holds no other kind of call |
| `Ethereum.MetadataRecordOfLastToken` | src/api/ethereum.ts:80-92 | the record under a token's last occurrence is that token's address, the answers at slots 3i, 3i+1 and 3i+2, and its logo link |
| `Ethereum.MetadataTokenSlotMatchesCall` | src/api/ethereum.ts:80-92 | slot 3i+r is decoded into field r of token i's record, unless a later identical call overrides it |
| `Ethereum.MetadataLastCallIsLastToken` | src/api/ethereum.ts:68-76 | if no later call in the plan repeats a metadata call of token i, then token i does not occur again later in the list |
| `Ethereum.EmptyMetadataPlan` | src/api/ethereum.ts:66-93 | with no tokens the plan is empty and the decoded map is empty |

## Left out

- The `ethcall` `Provider`, `init(provider)` and the network round trip of
  `all(calls)` are replaced by the parameter `all` (lines 23-24, 47, 64-65, 78).
  - The model does not verify that the aggregator preserves call order or that
    a batch fails as a whole. It assumes both, as `AnswersEveryCall` and the
    `None` result.
  - Transport failures, timeouts and reverts all collapse into that `None`.
- ABI encoding through `new Contract(..., erc20Abi / dsProxyRegistryAbi)` and
  the JSON ABIs are library code (lines 29-31, 40-44, 69-72). Calls are plain
  `Call` constructors.
- `.toString()` on the big-number answers is library formatting (lines 54-55,
  58). It is the uninterpreted parameter `toStr`.
- `getTrustwalletLink`, the value of `ETH_KEY` and `config.addresses.*` are
  defined in modules outside this file. They are parameters: `link`, `ethKey`
  and `Config`.
- `async`/`await` and the `Promise` plumbing are not modelled. Only the
  all-or-nothing outcome of a batch is kept.
- `DecodeAccountState`, `DecodeTokenMetadata`: they require an answer list
  exactly as long as the plan, as the aggregator guarantees. The JavaScript
  behaviour on a shorter list is not modelled: reading `undefined`, or throwing
  on `undefined.toString()`.
- Plain JavaScript objects are used as maps, and the model treats every string
  key alike. It does not capture special keys such as `__proto__`, which do not
  become own properties of the object.
