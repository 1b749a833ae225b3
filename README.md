# Proof-of-work block simulation, modelled in Dafny

The system is a small educational blockchain. It shows three blocks. Each block is linked to its predecessor by hash and is mined by a brute-force nonce search. The user can edit a block's payload, and after every edit the app recomputes a validity vector. This project models two parts of it:

- `Block` (src/block.js) becomes module `Blocks` (block.dfy). It holds the record of `index`, `timestamp`, `data`, `previousHash`, `nonce`, `hash` and `miningTime`, the digest over the hashed fields, `mineBlock` and `updateData`. The class keeps the source's form: its methods assign the fields in place, and `mineBlock` is a `while` loop over `nonce`.
- The chain logic of the `App` component (src/App.jsx) becomes module `Chain` (chain.dfy). It covers `validateChain`, `handleChange`, `mineBlockAtIndex` and the three-block chain built in `useEffect`. The chain is a `seq<Block>` of distinct objects. The source copies the array and then mutates the blocks in place, so the methods modify the blocks and never the slots.
- The payload object `{ amount, to }` and its spread update `{ ...data, [field]: value }` become module `Payload` (payload.dfy). Module `Wrappers` (wrappers.dfy) holds the `Option` type used for `null` and `undefined`.

SHA-256 (crypto-js) is a parameter `sha: HashFn` over the five hashed fields. Nothing about it is assumed, not even collision-freedom, so every result holds for any hash function. Mining alone needs one thing of it: some nonce no larger than 2^53 must solve the block (see "## Left out"). The `JSON.stringify` encoding and the string concatenation are folded into it. The wall-clock readings around the mining loop are parameters `startTime`/`endTime`, and JavaScript's `Number` is a parameter `toNumber`.

Each operation that changes state is specified by a function over block values: `Updated`, `Mined`, `Relinked`, `CascadeFrom`, `Changed`, `MinedChain` and `Genesis`. The methods are proved equal to these functions, and the lemmas state the source's properties about them. `Block.Value()` gives one block's state as a value and `Chain.Snapshot` gives the whole chain's; these two abstraction functions link the objects to the specifications.

Where the code and the intended design differ, the model follows the code:
- `mineBlock` always searches for the prefix `"0000"` and ignores the difficulty it is given. Validation uses the app's difficulty. `MiningIgnoresDifficulty` shows a freshly mined block that is judged invalid at difficulty 5. `MinePrefixMeetsDifficulty` shows that at difficulty 4 or less a mined hash always passes.
- `updateData` and the re-link step compute the hash *before* they reset `nonce` to 0. The stored hash therefore covers the old nonce while the field reads 0. "hash always matches the current fields" is not an invariant of this code, and `UpdatedHashCanDisagree` exhibits a case where it fails.
- The constructor takes four parameters. `previousHash` defaults to `""`. The difficulty passed as a fifth argument is dropped.
- `handleChange` with an index past the end changes nothing: its loop does not run. `mineBlockAtIndex` with such an index throws in the source, so the model requires an index in range.

## Model

| member | source | states |
|---|---|---|
| Blocks.Block.constructor | src/block.js:4-12 | a new block has nonce 0, no mining time, the given fields (previousHash defaulting to ""), and the hash of those fields with nonce 0 |
| Blocks.Created | src/block.js:4-12 | the value a constructor produces: nonce 0, miningTime null, hash equal to the digest of its own fields |
| Blocks.DigestReadsOnlyHashedFields | src/block.js:14-22 | the digest depends on index, timestamp, data, previousHash and nonce only, not on the stored hash or the mining time |
| Blocks.Block.MineBlock | src/block.js:24-40 | given a solving nonce no larger than 2^53 (the range the double counter reaches), on return the hash starts with "0000" and equals the digest of the fields; the nonce is the least one whose digest has that prefix (every smaller one failed); index, timestamp, data and previousHash are unchanged; miningTime is set |
| Blocks.LeastSolutionUnique | src/block.js:27-35 | the nonce the search ends on is determined by the block's content alone, whatever nonce it held before, because the search restarts at 0 |
| Blocks.MinedIsConsistent | src/block.js:32-38 | a mined block's hash meets the "0000" prefix, agrees with its fields, and its mining time is non-null |
| Blocks.Block.UpdateData | src/block.js:44-49 | data becomes the new payload, nonce 0, miningTime null, hash is the digest over the new data with the nonce held before the reset; index, timestamp and previousHash unchanged |
| Blocks.UpdatedHashIsStale | src/block.js:44-49 | after an update the stored hash matches the current fields exactly when the old nonce and nonce 0 give the same digest |
| Blocks.UpdatedHashCanDisagree | src/block.js:46-47 | for some hash function and block, the hash stored by an update differs from the digest of the block's current fields |
| Payload.Lookup | src/App.jsx:54-57 | a key is found exactly when some entry of the object carries it |
| Payload.Put | src/App.jsx:54-57 | the spread keeps every key in place when the edited field exists, and appends it as the last key when it does not |
| Payload.PutLookup | src/App.jsx:54-57 | reading the edited field back gives the new value |
| Payload.PutKeepsOthers | src/App.jsx:54-57 | every other field of the payload keeps its value |
| Payload.PutKeepsDistinct | src/App.jsx:54-57 | the result of the spread still has one entry per key |
| Payload.Coerce | src/App.jsx:56 | the value is a number exactly when the field is "amount", otherwise it is the raw string |
| Chain.Validate | src/App.jsx:39-46 | one verdict per block; block i is valid iff its hash starts with d zeros and (i is 0 or its previousHash equals block i-1's hash) |
| Chain.GenesisIgnoresPreviousHash | src/App.jsx:43 | block 0's verdict does not change whatever its previousHash holds |
| Chain.ValidityIsLocal | src/App.jsx:41-44 | block i's verdict depends only on blocks 0..i |
| Chain.ChainValidIff | src/App.jsx:39-46 | every verdict is true iff every hash meets the difficulty and every later block links to its predecessor |
| Chain.MinePrefixMeetsDifficulty | src/App.jsx:40-42 | a hash that starts with "0000" meets every difficulty up to 4 |
| Chain.MiningIgnoresDifficulty | src/App.jsx:75 | a block mined at the app's request can still fail validation at difficulty 5, since mining always targets "0000" |
| Chain.CascadeFrom | src/App.jsx:77-82 | the forward re-link keeps the chain's length and leaves every block before its start untouched |
| Chain.CascadeRelinks | src/App.jsx:59-64 | each re-linked block points at its predecessor's current hash, has nonce 0 and no mining time, keeps index, timestamp and data, and is hashed with its old nonce |
| Chain.CascadeValidity | src/App.jsx:77-84 | after the re-link, verdicts before the start are unchanged and each later block's verdict rests on its hash alone |
| Chain.ChangeFacts | src/App.jsx:48-70 | an edit at k keeps the length, leaves blocks before k untouched, applies updateData with the spread payload to block k, and re-links every later block without mining it |
| Chain.ChangeEditsOneField | src/App.jsx:54-58 | block k's payload holds the new value in the edited field and every other field as before |
| Chain.ChangeValidity | src/App.jsx:48-67 | an edit at k leaves every verdict before k unchanged, judges block k on its new hash and its unchanged link, and each block after k on its hash alone |
| Chain.ChangeKeepsDistinctKeys | src/App.jsx:54-58 | if every payload has one entry per key before an edit, every payload still does after it |
| Chain.MineFacts | src/App.jsx:72-87 | mining at k leaves blocks before k untouched, gives block k a consistent hash with the "0000" prefix and a mining time, and re-links every later block without mining it |
| Chain.MineExtendsValidPrefix | src/App.jsx:72-84 | at difficulty up to 4, mining block k of a chain valid before k and linked at k makes blocks 0..k valid and links block k+1 to it, so mining blocks in order validates the whole chain |
| Chain.RelinkBlock | src/App.jsx:60-63 | one re-link step changes block i to point at block i-1's hash, hashes it with the old nonce, then resets nonce and mining time; no other block changes |
| Chain.RelinkFrom | src/App.jsx:77-82 | the loop leaves the chain equal to the forward re-link of its old value |
| Chain.HandleChange | src/App.jsx:48-70 | the chain becomes the edit of its old value with the coerced field value, and the result is the validity vector of the new chain |
| Chain.MineBlockAtIndex | src/App.jsx:72-87 | given a solving nonce no larger than 2^53, block k gets the least solving nonce for its content and the chain becomes the mined-and-re-linked value of the old one; the result is the new validity vector |
| Chain.GenesisDistinctKeys | src/App.jsx:15-29 | every payload of the initial chain has one entry per key |
| Chain.GenesisFacts | src/App.jsx:11-37 | the initial chain has indices 1, 2, 3, block 1 points at "0", each later block at its predecessor's hash, no block is mined, and each verdict rests on the hash alone |
| Chain.InitialChain | src/App.jsx:11-37 | three fresh, distinct blocks whose values are the initial chain, with its validity vector |

## Left out

- SHA-256 and the canonical encoding (`JSON.stringify`, string concatenation of the fields) are not modelled. The hash is an arbitrary function of the five fields. Distinct field tuples that concatenate to the same string could collide in the source; the model allows any collisions and assumes none.
- Blocks.Block.MineBlock: the source loops forever when no nonce yields the prefix. It also loops forever when the first solving nonce is above 2^53: `nonce` is a double, and `nonce++` stops growing at 2^53. The model asks for a ghost `bound` nonce, no larger than 2^53, that solves the block, and proves that the search stops at or before it. Non-termination and the saturated counter are not modelled. The same requirement is on Chain.MineBlockAtIndex.
- `miningTime` is a float of milliseconds from `performance.now()`. The model stores the difference of two real parameters and only distinguishes null from set. `console.log` is left out.
- Timestamps from `new Date().toISOString()` are opaque strings passed in as parameters.
- `Number(value)` (including `NaN` and non-integer results) is the parameter `toNumber` returning an integer. `parseInt` of the difficulty input, which can give `NaN` or a negative value, is not modelled: difficulty is a `nat`.
- JavaScript orders integer-like property keys before other keys. The payload model keeps pure insertion order, which matches the source for the keys the app uses ("amount", "to").
- React state (`useState`, `useEffect`, the `setBlockchain` updaters), rendering, CSS and the difficulty input widget are not modelled. The validity vector is returned instead of being stored in state.
- Chain.MineBlockAtIndex: an index past the end makes the source throw a `TypeError`. The model requires an index in range instead of modelling the exception.
