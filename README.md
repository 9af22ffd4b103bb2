# club-nft, modelled in Dafny

Club NFTs are collectible tokens whose club ("breed") is chosen by a Chainlink
VRF random word only after the mint was paid for. This project models two
pieces of the repository:

* **Token-URI assembly** of the deploy script (`handleTokenUris` in
  `deploy/02-deploy-club-nft.js`): per uploaded club image a metadata record
  `{name, description, image, fans}` is built from a fresh copy of the empty
  template, uploaded, and `ipfs://<hash>` of the record is appended to
  `tokenUris`, which the script hands to the contract. Module `TokenUris`
  (with `JsString` for JavaScript's `String.prototype.replace`). The
  imperative loop is the method `Deployment.HandleTokenUris`, proved equal to
  the specification function `TokenUrisFor`.
* **The ClubNft contract** as its unit tests (`test/unit/club.test.js`) pin it
  down: the breed selector `getBreedFromModdedRng` over an ordered table of
  cumulative bounds (module `BreedSelector`), and a class `ClubNft` with the
  mint fee, the token-URI list, `initialized`, `tokenCounter`, the
  request-id-to-sender table and the minted tokens, with the fee-gated
  `requestNft` and the oracle callback `fulfillRandomWords` (module
  `ClubNftContract`). The constructor, `requestNft` and `fulfillRandomWords`
  tests are each a method that builds a fresh contract and proves what the
  test asserts. The four `getBreedFromModdedRng` tests build no contract: they
  are the lemma `TestedBreeds` about the selector function over chance tables.

The `switch` that assigns the fan group has no `break`s, so it falls through:
every one of HAJDUK, DINAMO, RIJEKA and OSIJEK ends with `fans = "KOHORTA"`,
and any other name keeps the template's `""`. A one-to-one lookup table was
evidently intended; the model follows the code as written (`FansFor`).

The Solidity source of the contract is not part of this model. Its behaviour
is taken from the unit tests, and where they are silent the model makes its
own assumptions. The chance table is a constructor parameter: the contract
accepts any ascending table whose last bound is 100 (`ChanceTable`), and the
values the tests assert are proved for every table that also has bounds 10
and 40 and a third bound above 74 (`ChanceTableAsTested`, the premise of
`TestedBreeds`). A minted token's URI is assumed to be
`clubTokenUris[tokenId % |clubTokenUris|]`.

The two Pinata uploads are inputs: the image upload is the sequence of its
responses' IPFS hashes together with the file names it read, and the metadata
upload is a function from the record to its hash. The VRF coordinator is
inputs too: `requestNft` takes the request id the coordinator returns, and
`fulfillRandomWords` takes the words it delivers.

## Model

| member | source | states |
|---|---|---|
| `JsString.IndexOfFrom` | deploy/02-deploy-club-nft.js:99 | the index found is an occurrence of the pattern and no earlier index at or after the start is one; no result means no occurrence at all |
| `JsString.ReplaceFirstAbsent` | deploy/02-deploy-club-nft.js:99 | `replace` with a pattern that does not occur returns the string unchanged |
| `JsString.ReplaceFirstPresent` | deploy/02-deploy-club-nft.js:99 | `replace` cuts out the first occurrence (at or before any given one) and splices the replacement in; the length changes by the difference |
| `JsString.ReplaceFirst` | deploy/02-deploy-club-nft.js:99 | `replace` with a string pattern leaves a string without the pattern unchanged, and otherwise changes its length by the replacement's length minus the pattern's |
| `TokenUris.StripPng` | deploy/02-deploy-club-nft.js:99 | the derived name is the file name when it has no ".png", and four characters shorter when it has one |
| `TokenUris.StripPngOfBaseName` | deploy/02-deploy-club-nft.js:98-99 | a dot-free base name plus ".png" (`HAJDUK.png`) gives back the base name (`HAJDUK`) |
| `TokenUris.StripPngWithoutExtension` | deploy/02-deploy-club-nft.js:99 | a file name without ".png" is used unchanged as the name |
| `TokenUris.StripPngWithExtension` | deploy/02-deploy-club-nft.js:99 | a file name with ".png" loses exactly four characters, and putting ".png" back at the cut restores the file name |
| `TokenUris.FallThroughLastBodyWins` | deploy/02-deploy-club-nft.js:100-109 | a `switch` without `break` leaves the value assigned by the last case body whenever any label matches, and the prior value otherwise |
| `TokenUris.FallThrough` | deploy/02-deploy-club-nft.js:100-109 | a `switch` without `break` ends with either the value it started with or the value of one of its case bodies, and with the starting value when no label matches |
| `TokenUris.FansFor` | deploy/02-deploy-club-nft.js:100-109 | the fan group is "KOHORTA" for each of HAJDUK, DINAMO, RIJEKA, OSIJEK and "" (the template's) for any other name, in both directions |
| `TokenUris.BuildMetadata` | deploy/02-deploy-club-nft.js:97-109 | one image's record depends on that image only: its name is the stripped file name and its fans are "KOHORTA" for a club name and "" otherwise |
| `TokenUris.ClubFileMetadata` | deploy/02-deploy-club-nft.js:97-112 | for `<CLUB>.png` the record is exactly name CLUB, description " CLUB with KOHORTA fans!", image `ipfs://<hash>`, fans KOHORTA |
| `TokenUris.OtherFileMetadata` | deploy/02-deploy-club-nft.js:97-112 | a file whose name is no club gets the record with fans "", description `" " + name + " with  fans!"` and image `ipfs://<hash>` |
| `TokenUris.BuildTokenUriMetadata` | deploy/02-deploy-club-nft.js:97-112 | the field-by-field construction of one record, with the fall-through `switch` written as in the source, yields exactly `BuildMetadata` of the file name and image hash |
| `TokenUris.ClubNameHasNoDot` | deploy/02-deploy-club-nft.js:100-108 | none of the four club names contains a dot, so `<CLUB>.png` has its extension as the first ".png" |
| `TokenUris.MetadataUri` | deploy/02-deploy-club-nft.js:115-119 | the URI pushed for an image is "ipfs://" followed by the hash the metadata upload returned for that image's record |
| `TokenUris.TokenUrisFor` | deploy/02-deploy-club-nft.js:93-120 | one URI per image response, in index order; element k is `"ipfs://"` plus the stored hash of image k's record; every element is an IPFS URI |
| `TokenUris.TokenUrisForPrefix` | deploy/02-deploy-club-nft.js:85-120 | the list for the first n images is a prefix of the list for all of them: URIs are only appended |
| `TokenUris.TokenUrisForStep` | deploy/02-deploy-club-nft.js:93-120 | one more image response appends exactly that image's URI to the list |
| `TokenUris.DefaultTokenUrisShape` | deploy/02-deploy-club-nft.js:17-22 | the default list has four entries, each an IPFS URI |
| `TokenUris.Deployment.constructor` | deploy/02-deploy-club-nft.js:17-22 | `tokenUris` starts as the default list, and every entry is an IPFS URI |
| `TokenUris.Deployment.HandleTokenUris` | deploy/02-deploy-club-nft.js:84-125 | resets `tokenUris`, then builds each record field by field (fall-through switch included) and pushes its URI; the final list equals `TokenUrisFor`; with fewer file names than responses the loop throws at the first missing name, after pushing the URIs before it |
| `TokenUris.Deployment.ResolveTokenUris` | deploy/02-deploy-club-nft.js:33-35 | the list is replaced by `handleTokenUris`'s result only when UPLOAD_TO_PINATA is "true", and kept otherwise; it stays all IPFS URIs |
| `BreedSelector.ScanFrom` | test/unit/club.test.js:79-97 | the scan over ascending bounds returns a breed whose range `[previous bound, bound)` holds the number, and rejects exactly the numbers at or above the last bound |
| `BreedSelector.GetBreedFromModdedRng` | test/unit/club.test.js:79-97 | `getBreedFromModdedRng` returns a breed whose range holds the number, and reverts with RangeOutOfBounds exactly for numbers at or above the last bound |
| `BreedSelector.BucketsDisjoint` | test/unit/club.test.js:79-97 | a number in one breed's range lies below every later breed's range, so the ranges do not overlap |
| `BreedSelector.GetBreedMatchesBucket` | test/unit/club.test.js:79-97 | the selector returns breed i if and only if the number lies in breed i's range |
| `BreedSelector.EveryModdedRngHasBreed` | test/unit/club.test.js:93-97 | with the last bound 100, every random word reduced modulo 100 gets a breed, so the out-of-range rejection cannot fire during minting |
| `BreedSelector.TestedBreeds` | test/unit/club.test.js:79-97 | for every table consistent with the tests: 7 gives 0 (HAJDUK), 22 and 39 give 1 (DINAMO), 74 gives 2, 112 is rejected with RangeOutOfBounds |
| `ClubNftContract.ClubNft.constructor` | test/unit/club.test.js:18-24 | the token-URI list, fee and chance table are stored, `initialized` is true, the counter is 0 and no request, token or event exists |
| `ClubNftContract.ClubNft.GetMintFee` | test/unit/club.test.js:32-45 | the fee reported is the least payment `requestNft` accepts |
| `ClubNftContract.ClubNft.GetInitialized` | test/unit/club.test.js:21-23 | a constructed contract reports itself initialized |
| `ClubNftContract.ClubNft.GetTokenCounter` | test/unit/club.test.js:53-55 | the counter equals the number of minted tokens: every id below it has a URI and the counter itself has none yet |
| `ClubNftContract.ClubNft.GetClubTokenUris` | test/unit/club.test.js:20-22 | an index inside the list gives one of the configured URIs; an index past the end reverts |
| `ClubNftContract.ClubNft.TokenUri` | test/unit/club.test.js:52-54 | `tokenURI` is defined exactly for ids below the counter and is always one of the configured URIs |
| `ClubNftContract.ClubNft.RequestNft` | test/unit/club.test.js:27-45 | a payment below the fee reverts with NeedMoreETHSent and changes nothing; a payment of at least the fee records the sender under the request id, emits NftRequested and leaves the counter and tokens alone |
| `ClubNftContract.ClubNft.FulfillRandomWords` | test/unit/club.test.js:47-77 | the counter goes up by exactly one; exactly one token is appended, owned by the requester, with the breed selected from the first word modulo 100 and the URI at index tokenId modulo the list length; NftMinted is emitted; earlier tokens are untouched |
| `ClubNftContract.SetsStartingValues` | test/unit/club.test.js:18-24 | after construction `initialized` is true and token URI 0 starts with "ipfs://" |
| `ClubNftContract.RequestNftBelowFeeReverts` | test/unit/club.test.js:28-38 | with no payment or a payment below the fee, `requestNft` reverts with NeedMoreETHSent, records no request and emits nothing |
| `ClubNftContract.RequestNftAtFeeEmits` | test/unit/club.test.js:39-45 | paying exactly the fee succeeds and emits exactly NftRequested for that request id and sender, with the counter still 0 |
| `ClubNftContract.MintsNftAfterRandomNumber` | test/unit/club.test.js:48-77 | after one paid request and its fulfilment the counter is 1, token 0's URI starts with "ipfs://", token 0 belongs to the requester and its breed's range holds the reduced random word |

## Left out

- Network and chain selection, the VRF mock subscription (creation, funding, `addConsumer`), deploy-argument assembly and Etherscan verification (deploy/02-deploy-club-nft.js:29-79): deployment configuration and I/O.
- `storeImages` and `storeTokenUriMetadata`: network uploads whose code is not part of this model; they are the inputs described above. The metadata upload is a total function, so identical records get identical hashes.
- `console.log` output (deploy/02-deploy-club-nft.js:113, 121-122).
- `await` sequencing and the `for ... in` loop's string keys: the loop is modelled over indices 0 to n-1 in order, as `for ... in` enumerates an array.
- deploy/04-mint.js: an asynchronous driver (event listener, five-minute timeout, mock fulfilment call), not logic.
- Test-harness mechanics (fixtures, Promises, `once` listeners, reading the request id from the receipt) and wei arithmetic with `parseEther`: the fee and payments are natural numbers.
- The VRF coordinator: request-id issuance, randomness, and the check that only the coordinator calls `fulfillRandomWords`; the callback's precondition says the request id was issued and at least one word is delivered.
- ClubNftContract.ClubNft.FulfillRandomWords: does not reject a replayed or unknown request id, because no code or test of the repository states how the contract handles one; the request table is left as it is.
- ClubNftContract.ClubNft.FulfillRandomWords: the minted token's URI `clubTokenUris[tokenId % |clubTokenUris|]` is an assumption of the model; with the contract's code absent, indexing the list by the selected breed (one URI per club image) fits the tests equally well.
- ClubNftContract.ClubNft.constructor: requires a non-empty URI list and a well-formed chance table, as deployment configuration rather than checks the contract is known to make; a second initialisation is not modelled.
- ERC-721 ownership beyond the minted token's owner (balances, approvals, transfers) and 256-bit overflow of the counter and the random word: not exercised by the tests.
- Whether any number in 40..99 selects breed 3 (OSIJEK): not determined by the tests, so the third and fourth bounds stay parameters of the chance table.
